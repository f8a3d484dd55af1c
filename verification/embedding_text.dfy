/**
 * The text handed to the embedding model for a resume and for a job, and
 * the completeness score of a resume's profile with its suggestions.
 *
 * A prepared text is a fixed list of candidate lines, each with a heading,
 * a body and whether it is shown; the shown lines, rendered as heading
 * followed by body, are joined by newlines.
 */
module EmbeddingText {
  import opened Common

  // ---------------------------------------------------------------------------
  // Stored documents, as the embedding services read them
  // ---------------------------------------------------------------------------

  /** One experience entry of a stored profile; an absent field is "" or 0. */
  datatype WorkEntry = WorkEntry(title: string, company: string, years: nat)

  /** One education entry of a stored profile; an absent field is "". */
  datatype StudyEntry = StudyEntry(level: string, field: string, institution: string)

  /**
   * A stored resume. A missing profile reads as no skills, no entries,
   * 0 years and an empty summary; `embeddingStatus` is "" when absent.
   */
  datatype ResumeRecord = ResumeRecord(
    candidateName: string,
    skillNames: seq<string>,
    experience: seq<WorkEntry>,
    totalYearsExperience: nat,
    education: seq<StudyEntry>,
    summary: string,
    rawText: string,
    embeddingStatus: string)

  /** A stored job; absent fields read as "", no skills or 0 years. */
  datatype JobRecord = JobRecord(
    title: string,
    requiredNames: seq<string>,
    preferredNames: seq<string>,
    totalYearsRequired: nat,
    rawText: string)

  // ---------------------------------------------------------------------------
  // Lines
  // ---------------------------------------------------------------------------

  /** The heading that starts each line of a prepared text. */
  datatype Heading =
    | CandidateProfile | Skills | Experience | TotalExperience | Education | Summary | Details
    | JobTitle | RequiredSkills | PreferredSkills | ExperienceRequired | Description

  function HeadingText(h: Heading): (r: string)
    ensures r != []
  {
    match h
    case CandidateProfile => "Candidate Profile"
    case Skills => "Skills: "
    case Experience => "Experience: "
    case TotalExperience => "Total Experience: "
    case Education => "Education: "
    case Summary => "Summary: "
    case Details => "Details: "
    case JobTitle => "Job Title: "
    case RequiredSkills => "Required Skills: "
    case PreferredSkills => "Preferred Skills: "
    case ExperienceRequired => "Experience Required: "
    case Description => "Description: "
  }

  datatype Line = Line(heading: Heading, body: string, shown: bool)

  function Render(l: Line): string {
    HeadingText(l.heading) + l.body
  }

  predicate IsShown(l: Line) {
    l.shown
  }

  function Shown(lines: seq<Line>): seq<Line> {
    Filter(lines, IsShown)
  }

  function Headings(lines: seq<Line>): (r: seq<Heading>)
    ensures |r| == |lines|
    ensures forall i :: 0 <= i < |lines| ==> r[i] == lines[i].heading
  {
    seq(|lines|, i requires 0 <= i < |lines| => lines[i].heading)
  }

  function RenderAll(lines: seq<Line>): (r: seq<string>)
    ensures |r| == |lines|
    ensures forall i :: 0 <= i < |lines| ==> r[i] == Render(lines[i])
  {
    seq(|lines|, i requires 0 <= i < |lines| => Render(lines[i]))
  }

  /** The lines for the given headings, in order, each with its body and whether it is shown. */
  function LinesFor(headings: seq<Heading>, body: Heading -> string, shown: Heading -> bool): (r: seq<Line>)
    ensures |r| == |headings|
    ensures forall k :: 0 <= k < |r| ==> r[k] == Line(headings[k], body(headings[k]), shown(headings[k]))
  {
    seq(|headings|, k requires 0 <= k < |headings| => Line(headings[k], body(headings[k]), shown(headings[k])))
  }

  /** No heading occurs twice. */
  predicate DistinctHeadings(headings: seq<Heading>) {
    forall i, k :: 0 <= i < |headings| && 0 <= k < |headings| && i != k ==> headings[i] != headings[k]
  }

  /** The position of a heading in the fixed order of all headings. */
  function HeadingRank(h: Heading): nat {
    match h
    case CandidateProfile => 0
    case Skills => 1
    case Experience => 2
    case TotalExperience => 3
    case Education => 4
    case Summary => 5
    case Details => 6
    case JobTitle => 7
    case RequiredSkills => 8
    case PreferredSkills => 9
    case ExperienceRequired => 10
    case Description => 11
  }

  /** Headings whose ranks count up from `base` are distinct. */
  lemma RankedDistinct(headings: seq<Heading>, base: nat)
    requires forall k :: 0 <= k < |headings| ==> HeadingRank(headings[k]) == base + k
    ensures DistinctHeadings(headings)
  {
    forall i, k | 0 <= i < |headings| && 0 <= k < |headings| && i != k
      ensures headings[i] != headings[k]
    {
      assert HeadingRank(headings[i]) != HeadingRank(headings[k]);
    }
  }

  /** None of the headings is flagged as shown. */
  ghost predicate NoneFlagged(headings: seq<Heading>, shown: Heading -> bool) {
    forall h :: h in headings ==> !shown(h)
  }

  /** The shown lines joined by newlines: `parts.join('\n')`. */
  function TextOf(lines: seq<Line>): string {
    Join(RenderAll(Shown(lines)), "\n")
  }

  /** Some line of the list is shown under `heading`. */
  predicate ShowsHeading(lines: seq<Line>, heading: Heading)
    decreases |lines|
  {
    lines != [] && ((lines[0].shown && lines[0].heading == heading) || ShowsHeading(lines[1..], heading))
  }

  /** No shown line contains a newline, so the text splits back into its lines. */
  predicate SingleLines(lines: seq<Line>) {
    forall l :: l in Shown(lines) ==> '\n' !in Render(l)
  }

  /** `items.map(f)`. */
  function StringsOf<T>(s: seq<T>, f: T -> string): (r: seq<string>)
    ensures |r| == |s|
    ensures forall i :: 0 <= i < |s| ==> r[i] == f(s[i])
  {
    seq(|s|, i requires 0 <= i < |s| => f(s[i]))
  }

  predicate NonEmpty(s: string) {
    s != []
  }

  /** `items.map(f).filter(Boolean).join(', ')`. */
  function ListText<T>(items: seq<T>, f: T -> string): string {
    Join(Filter(StringsOf(items, f), NonEmpty), ", ")
  }

  /** Every shown line renders to a line of the text, and splitting the text at newlines gives them back. */
  lemma TextLines(lines: seq<Line>)
    requires Shown(lines) != [] && SingleLines(lines)
    ensures SplitOn(TextOf(lines), '\n') == RenderAll(Shown(lines))
  {
    var parts := RenderAll(Shown(lines));
    forall i | 0 <= i < |parts|
      ensures '\n' !in parts[i]
    {
      assert Shown(lines)[i] in Shown(lines);
    }
    SplitJoin(parts, '\n');
  }

  /** The text is empty exactly when no line is shown. */
  lemma TextEmpty(lines: seq<Line>)
    ensures TextOf(lines) == [] <==> Shown(lines) == []
  {
    var shown := Shown(lines);
    if shown != [] {
      assert shown[0] in shown;
      assert shown[0] in lines;
      JoinEmpty(RenderAll(shown), "\n");
    }
  }

  /** A line is shown under a heading exactly when one of the shown lines carries it. */
  lemma {:induction false} ShowsHeadingShown(lines: seq<Line>, heading: Heading)
    ensures ShowsHeading(lines, heading) <==> exists l :: l in Shown(lines) && l.heading == heading
    decreases |lines|
  {
    if lines != [] {
      ShowsHeadingShown(lines[1..], heading);
      var head: seq<Line> := if lines[0].shown then [lines[0]] else [];
      assert Shown(lines) == head + Shown(lines[1..]);
    }
  }

  /** With a heading no other line carries, that heading is shown exactly when its own line is. */
  lemma {:induction false} ShowsAt(lines: seq<Line>, k: nat)
    requires k < |lines|
    requires forall i :: 0 <= i < |lines| && i != k ==> lines[i].heading != lines[k].heading
    ensures ShowsHeading(lines, lines[k].heading) <==> lines[k].shown
    decreases k
  {
    if k > 0 {
      var rest := lines[1..];
      assert rest[k - 1] == lines[k];
      ShowsAt(rest, k - 1);
    } else {
      NotShownElsewhere(lines[1..], lines[0].heading);
    }
  }

  /** A heading that no line carries is not shown. */
  lemma {:induction false} NotShownElsewhere(lines: seq<Line>, heading: Heading)
    requires forall i :: 0 <= i < |lines| ==> lines[i].heading != heading
    ensures !ShowsHeading(lines, heading)
    decreases |lines|
  {
    if lines != [] {
      NotShownElsewhere(lines[1..], heading);
    }
  }

  /** No line is shown exactly when no heading is flagged. */
  lemma NoneShown(headings: seq<Heading>, body: Heading -> string, shown: Heading -> bool)
    ensures Shown(LinesFor(headings, body, shown)) == [] <==> NoneFlagged(headings, shown)
  {
    var lines := LinesFor(headings, body, shown);
    if Shown(lines) != [] {
      assert Shown(lines)[0] in Shown(lines);
      assert Shown(lines)[0] in lines;
      var k :| 0 <= k < |lines| && lines[k] == Shown(lines)[0];
      assert headings[k] in headings;
    }
    if !NoneFlagged(headings, shown) {
      var h :| h in headings && shown(h);
      var k :| 0 <= k < |headings| && headings[k] == h;
      assert lines[k] in Shown(lines);
    }
  }

  /** With distinct headings, a listed heading is shown exactly when it is flagged. */
  lemma ShowsFlagged(headings: seq<Heading>, body: Heading -> string, shown: Heading -> bool, h: Heading)
    requires DistinctHeadings(headings) && h in headings
    ensures ShowsHeading(LinesFor(headings, body, shown), h) <==> shown(h)
  {
    var k :| 0 <= k < |headings| && headings[k] == h;
    ShowsAt(LinesFor(headings, body, shown), k);
  }

  /** A shown line carries the body of its heading, and its heading is flagged. */
  lemma ShownBody(headings: seq<Heading>, body: Heading -> string, shown: Heading -> bool, l: Line)
    requires l in Shown(LinesFor(headings, body, shown))
    ensures l.body == body(l.heading) && shown(l.heading)
  {
  }

  /** Shown lines keep the order of the list. */
  lemma ShownInOrder(lines: seq<Line>, i: nat, j: nat)
    requires i < j < |Shown(lines)|
    ensures exists a, b :: 0 <= a < b < |lines| && Shown(lines)[i] == lines[a] && Shown(lines)[j] == lines[b]
  {
    FilterKeepsOrder(lines, IsShown, i, j);
  }

  /** Some item of the list renders to a non-empty string. */
  ghost predicate Describes<T>(items: seq<T>, f: T -> string) {
    exists x :: x in items && f(x) != []
  }

  /** A joined list is non-empty exactly when some item renders to a non-empty string. */
  lemma ListTextNonEmpty<T>(items: seq<T>, f: T -> string)
    ensures ListText(items, f) != [] <==> Describes(items, f)
  {
    var kept := Filter(StringsOf(items, f), NonEmpty);
    if exists x :: x in items && f(x) != [] {
      var x :| x in items && f(x) != [];
      var i :| 0 <= i < |items| && items[i] == x;
      assert StringsOf(items, f)[i] == f(x);
      assert f(x) in kept;
      assert kept[0] in kept;
      JoinEmpty(kept, ", ");
    } else {
      forall s | s in StringsOf(items, f)
        ensures !NonEmpty(s)
      {
        var i :| 0 <= i < |items| && StringsOf(items, f)[i] == s;
        assert items[i] in items;
      }
      FilterNone(StringsOf(items, f), NonEmpty);
    }
  }

  // ---------------------------------------------------------------------------
  // Resume text
  // ---------------------------------------------------------------------------

  /** The resume headings, in the order their lines are assembled. */
  const ResumeHeadings: seq<Heading> :=
    [CandidateProfile, Skills, Experience, TotalExperience, Education, Summary, Details]

  /** The most characters of the raw text a resume's details line excerpts. */
  const ResumeExcerpt: nat := 400

  /** An experience entry: the title, then " at " and the company, then the years in parentheses. */
  function WorkText(e: WorkEntry): string {
    e.title
    + (if e.company != "" then " at " + e.company else "")
    + (if e.years != 0 then " (" + NatToString(e.years) + " years)" else "")
  }

  /** An education entry: the level, then " in " and the field, then " from " and the institution. */
  function StudyText(e: StudyEntry): string {
    e.level
    + (if e.field != "" then " in " + e.field else "")
    + (if e.institution != "" then " from " + e.institution else "")
  }

  function YearsText(years: nat): string {
    NatToString(years) + "+ years"
  }

  /** `rawText.substring(0, n).trim()`. */
  function Excerpt(raw: string, n: nat): (r: string)
    ensures |r| <= n && |r| <= |raw|
    ensures Trimmed(r)
  {
    TrimSpec(Prefix(raw, n));
    Trim(Prefix(raw, n))
  }

  /** The body of the resume line under a heading. */
  function ResumeBody(d: ResumeRecord, h: Heading): string {
    match h
    case Skills => Join(d.skillNames, ", ")
    case Experience => ListText(d.experience, WorkText)
    case TotalExperience => YearsText(d.totalYearsExperience)
    case Education => ListText(d.education, StudyText)
    case Summary => d.summary
    case Details => Excerpt(d.rawText, ResumeExcerpt)
    case _ => ""
  }

  /** Whether `prepareResumeTextForEmbedding` pushes the line under a heading. */
  predicate ResumeShowsIf(d: ResumeRecord, h: Heading) {
    match h
    case CandidateProfile => d.candidateName != ""
    case Skills => d.skillNames != []
    case Experience => d.experience != [] && ListText(d.experience, WorkText) != ""
    case TotalExperience => d.totalYearsExperience > 0
    case Education => d.education != [] && ListText(d.education, StudyText) != ""
    case Summary => d.summary != ""
    case Details => d.rawText != ""
    case _ => false
  }

  function ResumeBodyOf(d: ResumeRecord): Heading -> string {
    h => ResumeBody(d, h)
  }

  function ResumeFlagOf(d: ResumeRecord): Heading -> bool {
    h => ResumeShowsIf(d, h)
  }

  /** The candidate lines of `prepareResumeTextForEmbedding`, in order. */
  function ResumeLines(d: ResumeRecord): (r: seq<Line>)
    ensures Headings(r) == ResumeHeadings
  {
    LinesFor(ResumeHeadings, ResumeBodyOf(d), ResumeFlagOf(d))
  }

  /** `prepareResumeTextForEmbedding(resume)`. */
  function PrepareResumeText(d: ResumeRecord): string {
    TextOf(ResumeLines(d))
  }

  lemma ResumeHeadingsDistinct()
    ensures DistinctHeadings(ResumeHeadings)
  {
    RankedDistinct(ResumeHeadings, 0);
  }

  /**
   * When each resume line appears: the candidate line for a named candidate,
   * the skills line for a non-empty skill list, the experience and education
   * lines when some entry describes something, the total for a positive
   * year count, the summary when there is one, the details for raw text.
   */
  lemma ResumeShows(d: ResumeRecord)
    ensures var lines := ResumeLines(d);
      && (ShowsHeading(lines, CandidateProfile) <==> d.candidateName != "")
      && (ShowsHeading(lines, Skills) <==> d.skillNames != [])
      && (ShowsHeading(lines, Experience) <==> Describes(d.experience, WorkText))
      && (ShowsHeading(lines, TotalExperience) <==> d.totalYearsExperience > 0)
      && (ShowsHeading(lines, Education) <==> Describes(d.education, StudyText))
      && (ShowsHeading(lines, Summary) <==> d.summary != "")
      && (ShowsHeading(lines, Details) <==> d.rawText != "")
  {
    ResumeShowsCandidate(d);
    ResumeShowsSkills(d);
    ResumeShowsExperience(d);
    ResumeShowsTotal(d);
    ResumeShowsEducation(d);
    ResumeShowsSummary(d);
    ResumeShowsDetails(d);
  }

  // One lemma per resume heading: the line is flagged, and so shown, exactly under its condition.

  lemma ResumeShowsCandidate(d: ResumeRecord)
    ensures ResumeFlagOf(d)(CandidateProfile) <==> d.candidateName != ""
    ensures ShowsHeading(ResumeLines(d), CandidateProfile) <==> d.candidateName != ""
  {
    ResumeHeadingsDistinct();
    ShowsFlagged(ResumeHeadings, ResumeBodyOf(d), ResumeFlagOf(d), CandidateProfile);
  }

  lemma ResumeShowsSkills(d: ResumeRecord)
    ensures ResumeFlagOf(d)(Skills) <==> d.skillNames != []
    ensures ShowsHeading(ResumeLines(d), Skills) <==> d.skillNames != []
  {
    ResumeHeadingsDistinct();
    ShowsFlagged(ResumeHeadings, ResumeBodyOf(d), ResumeFlagOf(d), Skills);
  }

  lemma ResumeShowsExperience(d: ResumeRecord)
    ensures ResumeFlagOf(d)(Experience) <==> Describes(d.experience, WorkText)
    ensures ShowsHeading(ResumeLines(d), Experience) <==> Describes(d.experience, WorkText)
  {
    ResumeHeadingsDistinct();
    ShowsFlagged(ResumeHeadings, ResumeBodyOf(d), ResumeFlagOf(d), Experience);
    ListTextNonEmpty(d.experience, WorkText);
  }

  lemma ResumeShowsTotal(d: ResumeRecord)
    ensures ResumeFlagOf(d)(TotalExperience) <==> d.totalYearsExperience > 0
    ensures ShowsHeading(ResumeLines(d), TotalExperience) <==> d.totalYearsExperience > 0
  {
    ResumeHeadingsDistinct();
    ShowsFlagged(ResumeHeadings, ResumeBodyOf(d), ResumeFlagOf(d), TotalExperience);
  }

  lemma ResumeShowsEducation(d: ResumeRecord)
    ensures ResumeFlagOf(d)(Education) <==> Describes(d.education, StudyText)
    ensures ShowsHeading(ResumeLines(d), Education) <==> Describes(d.education, StudyText)
  {
    ResumeHeadingsDistinct();
    ShowsFlagged(ResumeHeadings, ResumeBodyOf(d), ResumeFlagOf(d), Education);
    ListTextNonEmpty(d.education, StudyText);
  }

  lemma ResumeShowsSummary(d: ResumeRecord)
    ensures ResumeFlagOf(d)(Summary) <==> d.summary != ""
    ensures ShowsHeading(ResumeLines(d), Summary) <==> d.summary != ""
  {
    ResumeHeadingsDistinct();
    ShowsFlagged(ResumeHeadings, ResumeBodyOf(d), ResumeFlagOf(d), Summary);
  }

  lemma ResumeShowsDetails(d: ResumeRecord)
    ensures ResumeFlagOf(d)(Details) <==> d.rawText != ""
    ensures ShowsHeading(ResumeLines(d), Details) <==> d.rawText != ""
  {
    ResumeHeadingsDistinct();
    ShowsFlagged(ResumeHeadings, ResumeBodyOf(d), ResumeFlagOf(d), Details);
  }

  /** The shown resume lines follow the fixed order of the headings. */
  lemma ResumeInOrder(d: ResumeRecord, i: nat, j: nat)
    requires i < j < |Shown(ResumeLines(d))|
    ensures exists a, b :: (0 <= a < b < |ResumeHeadings|
      && Shown(ResumeLines(d))[i].heading == ResumeHeadings[a]
      && Shown(ResumeLines(d))[j].heading == ResumeHeadings[b])
  {
    ShownInOrder(ResumeLines(d), i, j);
  }

  /** The details line holds at most the first 400 characters of the raw text, trimmed. */
  lemma ResumeDetails(d: ResumeRecord)
    ensures forall l :: l in Shown(ResumeLines(d)) && l.heading == Details ==>
      l.body == Trim(Prefix(d.rawText, ResumeExcerpt)) && |l.body| <= ResumeExcerpt
  {
    forall l | l in Shown(ResumeLines(d)) && l.heading == Details
      ensures l.body == Trim(Prefix(d.rawText, ResumeExcerpt)) && |l.body| <= ResumeExcerpt
    {
      ShownBody(ResumeHeadings, ResumeBodyOf(d), ResumeFlagOf(d), l);
    }
  }

  /** Nothing in the resume would produce a line. */
  ghost predicate NothingToShow(d: ResumeRecord) {
    && d.candidateName == "" && d.skillNames == [] && d.totalYearsExperience == 0
    && !Describes(d.experience, WorkText) && !Describes(d.education, StudyText)
    && d.summary == "" && d.rawText == ""
  }

  /** The prepared text is empty exactly when the resume has nothing to show. */
  lemma ResumeTextEmpty(d: ResumeRecord)
    ensures PrepareResumeText(d) == "" <==> NothingToShow(d)
  {
    ResumeTextNoneShown(d);
    ResumeShownNone(d);
  }

  /** The resume text is empty exactly when no line is flagged as shown. */
  lemma ResumeTextNoneShown(d: ResumeRecord)
    ensures PrepareResumeText(d) == "" <==> NoneFlagged(ResumeHeadings, ResumeFlagOf(d))
  {
    TextEmpty(ResumeLines(d));
    NoneShown(ResumeHeadings, ResumeBodyOf(d), ResumeFlagOf(d));
  }

  /** No resume line is flagged as shown exactly when the resume has nothing to show. */
  lemma ResumeShownNone(d: ResumeRecord)
    ensures NoneFlagged(ResumeHeadings, ResumeFlagOf(d)) <==> NothingToShow(d)
  {
    NoneFlaggedResume(ResumeFlagOf(d));
    ResumeShowsCandidate(d);
    ResumeShowsSkills(d);
    ResumeShowsExperience(d);
    ResumeShowsTotal(d);
    ResumeShowsEducation(d);
    ResumeShowsSummary(d);
    ResumeShowsDetails(d);
  }

  /** No resume heading is flagged exactly when each of the seven is not. */
  lemma NoneFlaggedResume(f: Heading -> bool)
    ensures NoneFlagged(ResumeHeadings, f) <==>
      !f(CandidateProfile) && !f(Skills) && !f(Experience) && !f(TotalExperience)
      && !f(Education) && !f(Summary) && !f(Details)
  {
  }

  // ---------------------------------------------------------------------------
  // Job text
  // ---------------------------------------------------------------------------

  /** The job headings, in the order their lines are assembled. */
  const JobHeadings: seq<Heading> :=
    [JobTitle, RequiredSkills, PreferredSkills, ExperienceRequired, Description]

  /** The most characters of the raw text a job's description line excerpts. */
  const JobExcerpt: nat := 500

  /** The body of the job line under a heading. */
  function JobBody(j: JobRecord, h: Heading): string {
    match h
    case JobTitle => j.title
    case RequiredSkills => Join(j.requiredNames, ", ")
    case PreferredSkills => Join(j.preferredNames, ", ")
    case ExperienceRequired => YearsText(j.totalYearsRequired)
    case Description => Excerpt(j.rawText, JobExcerpt)
    case _ => ""
  }

  /** Whether `prepareJobTextForEmbedding` pushes the line under a heading. */
  predicate JobShowsIf(j: JobRecord, h: Heading) {
    match h
    case JobTitle => j.title != ""
    case RequiredSkills => j.requiredNames != []
    case PreferredSkills => j.preferredNames != []
    case ExperienceRequired => j.totalYearsRequired > 0
    case Description => j.rawText != ""
    case _ => false
  }

  function JobBodyOf(j: JobRecord): Heading -> string {
    h => JobBody(j, h)
  }

  function JobFlagOf(j: JobRecord): Heading -> bool {
    h => JobShowsIf(j, h)
  }

  /** The candidate lines of `prepareJobTextForEmbedding`, in order. */
  function JobLines(j: JobRecord): (r: seq<Line>)
    ensures Headings(r) == JobHeadings
  {
    LinesFor(JobHeadings, JobBodyOf(j), JobFlagOf(j))
  }

  /** `prepareJobTextForEmbedding(job)`. */
  function PrepareJobText(j: JobRecord): string {
    TextOf(JobLines(j))
  }

  lemma JobHeadingsDistinct()
    ensures DistinctHeadings(JobHeadings)
  {
    RankedDistinct(JobHeadings, 7);
  }

  /** Each job line appears exactly when its field is present, non-empty or positive. */
  lemma JobShows(j: JobRecord)
    ensures ShowsHeading(JobLines(j), JobTitle) <==> j.title != ""
    ensures ShowsHeading(JobLines(j), RequiredSkills) <==> j.requiredNames != []
    ensures ShowsHeading(JobLines(j), PreferredSkills) <==> j.preferredNames != []
    ensures ShowsHeading(JobLines(j), ExperienceRequired) <==> j.totalYearsRequired > 0
    ensures ShowsHeading(JobLines(j), Description) <==> j.rawText != ""
  {
    JobShowsTitle(j);
    JobShowsRequired(j);
    JobShowsPreferred(j);
    JobShowsYears(j);
    JobShowsDescription(j);
  }

  // One lemma per job heading: the line is flagged, and so shown, exactly under its condition.

  lemma JobShowsTitle(j: JobRecord)
    ensures JobFlagOf(j)(JobTitle) <==> j.title != ""
    ensures ShowsHeading(JobLines(j), JobTitle) <==> j.title != ""
  {
    JobHeadingsDistinct();
    ShowsFlagged(JobHeadings, JobBodyOf(j), JobFlagOf(j), JobTitle);
  }

  lemma JobShowsRequired(j: JobRecord)
    ensures JobFlagOf(j)(RequiredSkills) <==> j.requiredNames != []
    ensures ShowsHeading(JobLines(j), RequiredSkills) <==> j.requiredNames != []
  {
    JobHeadingsDistinct();
    ShowsFlagged(JobHeadings, JobBodyOf(j), JobFlagOf(j), RequiredSkills);
  }

  lemma JobShowsPreferred(j: JobRecord)
    ensures JobFlagOf(j)(PreferredSkills) <==> j.preferredNames != []
    ensures ShowsHeading(JobLines(j), PreferredSkills) <==> j.preferredNames != []
  {
    JobHeadingsDistinct();
    ShowsFlagged(JobHeadings, JobBodyOf(j), JobFlagOf(j), PreferredSkills);
  }

  lemma JobShowsYears(j: JobRecord)
    ensures JobFlagOf(j)(ExperienceRequired) <==> j.totalYearsRequired > 0
    ensures ShowsHeading(JobLines(j), ExperienceRequired) <==> j.totalYearsRequired > 0
  {
    JobHeadingsDistinct();
    ShowsFlagged(JobHeadings, JobBodyOf(j), JobFlagOf(j), ExperienceRequired);
  }

  lemma JobShowsDescription(j: JobRecord)
    ensures JobFlagOf(j)(Description) <==> j.rawText != ""
    ensures ShowsHeading(JobLines(j), Description) <==> j.rawText != ""
  {
    JobHeadingsDistinct();
    ShowsFlagged(JobHeadings, JobBodyOf(j), JobFlagOf(j), Description);
  }

  /** The shown job lines follow the fixed order of the headings. */
  lemma JobInOrder(j: JobRecord, a: nat, b: nat)
    requires a < b < |Shown(JobLines(j))|
    ensures exists x, y :: (0 <= x < y < |JobHeadings|
      && Shown(JobLines(j))[a].heading == JobHeadings[x]
      && Shown(JobLines(j))[b].heading == JobHeadings[y])
  {
    ShownInOrder(JobLines(j), a, b);
  }

  /** The description line holds at most the first 500 characters of the raw text, trimmed. */
  lemma JobDescription(j: JobRecord)
    ensures forall l :: l in Shown(JobLines(j)) && l.heading == Description ==>
      l.body == Trim(Prefix(j.rawText, JobExcerpt)) && |l.body| <= JobExcerpt
  {
    forall l | l in Shown(JobLines(j)) && l.heading == Description
      ensures l.body == Trim(Prefix(j.rawText, JobExcerpt)) && |l.body| <= JobExcerpt
    {
      ShownBody(JobHeadings, JobBodyOf(j), JobFlagOf(j), l);
    }
  }

  /** A job with no title, skills, years or text, and only such a job, yields the empty string. */
  lemma JobTextEmpty(j: JobRecord)
    ensures PrepareJobText(j) == "" <==>
      j.title == "" && j.requiredNames == [] && j.preferredNames == [] && j.totalYearsRequired == 0 && j.rawText == ""
  {
    JobTextNoneShown(j);
    JobShownNone(j);
  }

  /** The job text is empty exactly when no line is flagged as shown. */
  lemma JobTextNoneShown(j: JobRecord)
    ensures PrepareJobText(j) == "" <==> NoneFlagged(JobHeadings, JobFlagOf(j))
  {
    TextEmpty(JobLines(j));
    NoneShown(JobHeadings, JobBodyOf(j), JobFlagOf(j));
  }

  /** No job line is flagged as shown exactly when every field is absent. */
  lemma JobShownNone(j: JobRecord)
    ensures NoneFlagged(JobHeadings, JobFlagOf(j)) <==>
      j.title == "" && j.requiredNames == [] && j.preferredNames == [] && j.totalYearsRequired == 0 && j.rawText == ""
  {
    NoneFlaggedJob(JobFlagOf(j));
    JobShowsTitle(j);
    JobShowsRequired(j);
    JobShowsPreferred(j);
    JobShowsYears(j);
    JobShowsDescription(j);
  }

  /** No job heading is flagged exactly when each of the five is not. */
  lemma NoneFlaggedJob(f: Heading -> bool)
    ensures NoneFlagged(JobHeadings, f) <==>
      !f(JobTitle) && !f(RequiredSkills) && !f(PreferredSkills) && !f(ExperienceRequired) && !f(Description)
  {
  }

  // ---------------------------------------------------------------------------
  // Profile completeness
  // ---------------------------------------------------------------------------

  const SkillsWeight: nat := 25
  const ExperienceWeight: nat := 25
  const EducationWeight: nat := 20
  const SummaryWeight: nat := 15
  const EmbeddingWeight: nat := 15

  /** A summary counts only when it is longer than this many characters. */
  const SummaryMinimum: nat := 50

  /** The embedding status that earns the embedding weight. */
  const ReadyStatus: string := "ready"

  /** The points each part of a profile earns: its weight, or 0. */
  datatype Breakdown = Breakdown(hasSkills: nat, hasExperience: nat, hasEducation: nat, hasSummary: nat, hasEmbedding: nat)

  function Credit(present: bool, weight: nat): nat {
    if present then weight else 0
  }

  /** Every part earns either nothing or its full weight. */
  predicate WeightsOnly(b: Breakdown) {
    && (b.hasSkills == 0 || b.hasSkills == SkillsWeight)
    && (b.hasExperience == 0 || b.hasExperience == ExperienceWeight)
    && (b.hasEducation == 0 || b.hasEducation == EducationWeight)
    && (b.hasSummary == 0 || b.hasSummary == SummaryWeight)
    && (b.hasEmbedding == 0 || b.hasEmbedding == EmbeddingWeight)
  }

  /** The `breakdown` object of `calculateProfileCompleteness`. */
  function BreakdownOf(d: ResumeRecord): (r: Breakdown)
    ensures WeightsOnly(r)
    ensures r.hasSkills > 0 <==> d.skillNames != []
    ensures r.hasExperience > 0 <==> d.experience != []
    ensures r.hasEducation > 0 <==> d.education != []
    ensures r.hasSummary > 0 <==> |d.summary| > SummaryMinimum
    ensures r.hasEmbedding > 0 <==> d.embeddingStatus == ReadyStatus
  {
    Breakdown(
      Credit(d.skillNames != [], SkillsWeight),
      Credit(d.experience != [], ExperienceWeight),
      Credit(d.education != [], EducationWeight),
      Credit(|d.summary| > SummaryMinimum, SummaryWeight),
      Credit(d.embeddingStatus == ReadyStatus, EmbeddingWeight))
  }

  /** The sum of the breakdown's values. */
  function Total(b: Breakdown): nat {
    b.hasSkills + b.hasExperience + b.hasEducation + b.hasSummary + b.hasEmbedding
  }

  /** The suggestions `generateSuggestions` can make, one per part of a profile. */
  datatype Tip = AddSkills | AddExperience | AddEducation | AddSummary | AddEmbedding

  function TipText(t: Tip): string {
    match t
    case AddSkills => "Add technical skills to improve matching"
    case AddExperience => "Include work experience details"
    case AddEducation => "Add education background"
    case AddSummary => "Include a professional summary"
    case AddEmbedding => "Generate AI embedding for semantic matching"
  }

  function TipIf(missing: bool, tip: Tip): seq<Tip> {
    if missing then [tip] else []
  }

  /** `generateSuggestions(breakdown)`: one suggestion per part worth 0, in a fixed order. */
  function Suggestions(b: Breakdown): seq<Tip> {
    TipIf(b.hasSkills == 0, AddSkills)
    + TipIf(b.hasExperience == 0, AddExperience)
    + TipIf(b.hasEducation == 0, AddEducation)
    + TipIf(b.hasSummary == 0, AddSummary)
    + TipIf(b.hasEmbedding == 0, AddEmbedding)
  }

  /** The weight of the part a suggestion asks for. */
  function TipWeight(t: Tip): nat {
    match t
    case AddSkills => SkillsWeight
    case AddExperience => ExperienceWeight
    case AddEducation => EducationWeight
    case AddSummary => SummaryWeight
    case AddEmbedding => EmbeddingWeight
  }

  function TipWeights(tips: seq<Tip>): nat {
    if tips == [] then 0 else TipWeight(tips[0]) + TipWeights(tips[1..])
  }

  lemma {:induction false} TipWeightsAppend(a: seq<Tip>, b: seq<Tip>)
    ensures TipWeights(a + b) == TipWeights(a) + TipWeights(b)
  {
    if a != [] {
      TipWeightsAppend(a[1..], b);
      assert (a + b)[1..] == a[1..] + b;
    } else {
      assert a + b == b;
    }
  }

  datatype Completeness = Completeness(score: nat, breakdown: Breakdown, status: string, color: string, suggestions: seq<Tip>)

  const CompleteAt: nat := 80
  const PartialAt: nat := 50

  /** `calculateProfileCompleteness(resume)`. */
  function ProfileCompleteness(d: ResumeRecord): (r: Completeness)
    ensures r.breakdown == BreakdownOf(d) && r.score == Total(r.breakdown)
    ensures r.score <= 100
    ensures r.status == "Complete" <==> r.score >= CompleteAt
    ensures r.status == "Partial" <==> PartialAt <= r.score < CompleteAt
    ensures r.status == "Incomplete" <==> r.score < PartialAt
    ensures r.color == "green" <==> r.status == "Complete"
    ensures r.color == "yellow" <==> r.status == "Partial"
    ensures r.color == "red" <==> r.status == "Incomplete"
    ensures r.score == 100 <==> r.suggestions == []
  {
    var b := BreakdownOf(d);
    var total := Total(b);
    Completeness(
      total, b,
      if total >= CompleteAt then "Complete" else if total >= PartialAt then "Partial" else "Incomplete",
      if total >= CompleteAt then "green" else if total >= PartialAt then "yellow" else "red",
      Suggestions(b))
  }

  /** What the suggestions ask for is exactly what the total lacks of 100. */
  lemma SuggestionsComplete(b: Breakdown)
    requires WeightsOnly(b)
    ensures Total(b) + TipWeights(Suggestions(b)) == 100
  {
    var s1, s2, s3, s4, s5 := TipIf(b.hasSkills == 0, AddSkills), TipIf(b.hasExperience == 0, AddExperience),
      TipIf(b.hasEducation == 0, AddEducation), TipIf(b.hasSummary == 0, AddSummary), TipIf(b.hasEmbedding == 0, AddEmbedding);
    assert b.hasSkills + TipWeights(s1) == SkillsWeight by { PartAccounts(b.hasSkills, AddSkills); }
    assert b.hasExperience + TipWeights(s2) == ExperienceWeight by { PartAccounts(b.hasExperience, AddExperience); }
    assert b.hasEducation + TipWeights(s3) == EducationWeight by { PartAccounts(b.hasEducation, AddEducation); }
    assert b.hasSummary + TipWeights(s4) == SummaryWeight by { PartAccounts(b.hasSummary, AddSummary); }
    assert b.hasEmbedding + TipWeights(s5) == EmbeddingWeight by { PartAccounts(b.hasEmbedding, AddEmbedding); }
    TipWeightsAppend(s1, s2);
    TipWeightsAppend(s1 + s2, s3);
    TipWeightsAppend(s1 + s2 + s3, s4);
    TipWeightsAppend(s1 + s2 + s3 + s4, s5);
  }

  /** A part and its suggestion, if any, account for the part's weight. */
  lemma PartAccounts(points: nat, t: Tip)
    requires points == 0 || points == TipWeight(t)
    ensures points + TipWeights(TipIf(points == 0, t)) == TipWeight(t)
  {
  }

  /** Each suggestion is made exactly when its part earns nothing. */
  lemma SuggestionsFor(b: Breakdown)
    ensures var tips := Suggestions(b);
      && (AddSkills in tips <==> b.hasSkills == 0)
      && (AddExperience in tips <==> b.hasExperience == 0)
      && (AddEducation in tips <==> b.hasEducation == 0)
      && (AddSummary in tips <==> b.hasSummary == 0)
      && (AddEmbedding in tips <==> b.hasEmbedding == 0)
      && |tips| <= 5
  {
  }

  /** The score and the weights of the suggested parts always add up to 100. */
  lemma CompletenessAccounts(d: ResumeRecord)
    ensures var r := ProfileCompleteness(d);
      r.score + TipWeights(r.suggestions) == 100
  {
    SuggestionsComplete(BreakdownOf(d));
  }

  /** A suggestion is made exactly for each part of the profile that earns nothing. */
  lemma SuggestionsName(d: ResumeRecord)
    ensures var tips := ProfileCompleteness(d).suggestions;
      && (AddSkills in tips <==> d.skillNames == [])
      && (AddExperience in tips <==> d.experience == [])
      && (AddEducation in tips <==> d.education == [])
      && (AddSummary in tips <==> |d.summary| <= SummaryMinimum)
      && (AddEmbedding in tips <==> d.embeddingStatus != ReadyStatus)
      && |tips| <= 5
  {
    SuggestionsFor(BreakdownOf(d));
  }

  /** A complete profile has skills and experience, and lacks at most one other part. */
  lemma CompleteProfile(d: ResumeRecord)
    requires ProfileCompleteness(d).status == "Complete"
    ensures d.skillNames != [] && d.experience != []
    ensures |ProfileCompleteness(d).suggestions| <= 1
  {
    CompletenessAccounts(d);
  }
}
