/**
 * The profiler: turns the pattern matches found in a resume or job text
 * into a structured profile. The ECMAScript regular expressions themselves
 * are not modelled; what each of them finds in the text is an input
 * (`TextMatches`), and the model covers everything the profiler does with
 * those matches: deduplication, confidence, sorting, the plausible-years
 * filter, the caps on roles and education entries, and the job split into
 * required and preferred skills.
 */
module Profiler {
  import opened Common
  import opened SkillVocabulary
  import Sorting

  // ---------------------------------------------------------------------------
  // Skills
  // ---------------------------------------------------------------------------

  /** A detected skill: canonical name, its category, confidence and number of occurrences. */
  datatype Skill = Skill(name: string, category: string, confidence: real, matchCount: nat)

  /**
   * `Math.min(0.5 + count * 0.1, 1.0)`. The source also rounds it to two
   * decimals with `toFixed(2)`, which leaves these values unchanged.
   */
  function Confidence(count: nat): (r: real)
    ensures r <= 1.0
    ensures count >= 1 ==> 6.0 / 10.0 <= r
    ensures count >= 5 <==> r == 1.0
    ensures count < 5 ==> 10.0 * r == 5.0 + count as real
  {
    MinReal(1.0 / 2.0 + count as real / 10.0, 1.0)
  }

  /**
   * The two vocabulary lookups detection depends on. The profiler uses
   * `TheVocabulary`; the detection loop is stated for any vocabulary.
   */
  datatype Vocabulary = Vocabulary(normalize: string -> Option<string>, category: string -> string)

  const TheVocabulary: Vocabulary := Vocabulary(NormalizeSkill, GetSkillCategory)

  /** The record stored for canonical `name` found `count` times. */
  function MakeSkill(v: Vocabulary, name: string, count: nat): Skill {
    Skill(name, v.category(name), Confidence(count), count)
  }

  /** What every detected skill satisfies. */
  predicate WellFormedSkill(s: Skill) {
    && s.name in Canonicals()
    && s.matchCount >= 1
    && s.category == GetSkillCategory(s.name)
    && s.confidence == Confidence(s.matchCount)
  }

  function ConfidenceOf(s: Skill): real {
    s.confidence
  }

  function Names(skills: seq<Skill>): (r: seq<string>)
    ensures |r| == |skills|
    ensures forall i :: 0 <= i < |skills| ==> r[i] == skills[i].name
  {
    if skills == [] then [] else [skills[0].name] + Names(skills[1..])
  }

  predicate NamesDistinct(skills: seq<Skill>) {
    forall i, j :: 0 <= i < j < |skills| ==> skills[i].name != skills[j].name
  }

  /**
   * The detection loop over the alias patterns. `hits(p)` is the number of
   * word-bounded occurrences of pattern `p` in the lower-cased text; a pattern
   * is detected when it occurs at least once, and `v.normalize` (which is
   * `NormalizeSkill`) names its canonical skill. The first detected pattern
   * of a canonical name fixes that name's record; later ones are skipped.
   */
  function Collect(patterns: seq<string>, hits: string -> nat, v: Vocabulary,
                   found: seq<Skill>): seq<Skill>
    decreases |patterns|
  {
    if patterns == [] then found
    else Collect(patterns[1..], hits, v, CollectStep(patterns[0], hits, v, found))
  }

  /** One pass of the loop body: the record for pattern `p` is added unless its name is already there. */
  function CollectStep(p: string, hits: string -> nat, v: Vocabulary,
                       found: seq<Skill>): seq<Skill> {
    if hits(p) > 0 then
      match v.normalize(p)
      case Some(n) => if n in Names(found) then found else found + [MakeSkill(v, n, hits(p))]
      case None => found
    else found
  }

  /** Reference: the record produced by the first pattern that occurs and normalises to `n`. */
  function FirstHit(patterns: seq<string>, hits: string -> nat, v: Vocabulary,
                    n: string): Option<Skill> {
    if patterns == [] then None
    else if hits(patterns[0]) > 0 && v.normalize(patterns[0]) == Some(n) then
      Some(MakeSkill(v, n, hits(patterns[0])))
    else FirstHit(patterns[1..], hits, v, n)
  }

  lemma {:induction false} FirstHitMakes(patterns: seq<string>, hits: string -> nat,
                                         v: Vocabulary, n: string)
    ensures var f := FirstHit(patterns, hits, v, n);
      f.Some? ==> (&& f.value == MakeSkill(v, n, f.value.matchCount)
                   && f.value.matchCount >= 1
                   && exists p :: p in patterns && v.normalize(p) == Some(n))
  {
    if patterns != [] {
      if !(hits(patterns[0]) > 0 && v.normalize(patterns[0]) == Some(n)) {
        FirstHitMakes(patterns[1..], hits, v, n);
      }
    }
  }

  /** A record the real vocabulary produces is well formed. */
  lemma FirstHitWellFormed(patterns: seq<string>, hits: string -> nat, n: string)
    requires FirstHit(patterns, hits, TheVocabulary, n).Some?
    ensures FirstHit(patterns, hits, TheVocabulary, n).value.name == n
    ensures WellFormedSkill(FirstHit(patterns, hits, TheVocabulary, n).value)
  {
    FirstHitMakes(patterns, hits, TheVocabulary, n);
    var p :| p in patterns && NormalizeSkill(p) == Some(n);
  }

  /** The detection loop only appends. */
  lemma {:induction false} CollectExtends(patterns: seq<string>, hits: string -> nat,
                                          v: Vocabulary, found: seq<Skill>)
    ensures var r := Collect(patterns, hits, v, found); |found| <= |r| && r[..|found|] == found
    decreases |patterns|
  {
    if patterns != [] {
      var next := CollectStep(patterns[0], hits, v, found);
      CollectExtends(patterns[1..], hits, v, next);
      var r := Collect(patterns, hits, v, found);
      PrefixChain(found, next, r);
    }
  }

  /** The detection loop never records a name twice. */
  lemma {:induction false} CollectDistinct(patterns: seq<string>, hits: string -> nat,
                                           v: Vocabulary, found: seq<Skill>)
    requires NamesDistinct(found)
    ensures NamesDistinct(Collect(patterns, hits, v, found))
    decreases |patterns|
  {
    if patterns != [] {
      CollectDistinct(patterns[1..], hits, v, CollectStep(patterns[0], hits, v, found));
    }
  }

  /** A name not yet recorded is recorded exactly when some pattern for it occurs. */
  lemma {:induction false} CollectFinds(patterns: seq<string>, hits: string -> nat,
                                        v: Vocabulary, found: seq<Skill>, n: string)
    requires n !in Names(found)
    ensures n in Names(Collect(patterns, hits, v, found)) <==> FirstHit(patterns, hits, v, n).Some?
    decreases |patterns|
  {
    if patterns != [] {
      var p := patterns[0];
      var next := CollectStep(p, hits, v, found);
      if hits(p) > 0 && v.normalize(p) == Some(n) {
        CollectExtends(patterns[1..], hits, v, next);
        var r := Collect(patterns[1..], hits, v, next);
        assert r[|found|] == next[|found|];
      } else {
        assert n !in Names(next);
        CollectFinds(patterns[1..], hits, v, next, n);
      }
    }
  }

  /** Each recorded name was recorded by its first occurring pattern. */
  lemma {:induction false} CollectRecordsFirstHit(patterns: seq<string>, hits: string -> nat,
                                                  v: Vocabulary, found: seq<Skill>, i: nat)
    requires NamesDistinct(found)
    requires |found| <= i < |Collect(patterns, hits, v, found)|
    ensures var r := Collect(patterns, hits, v, found);
      FirstHit(patterns, hits, v, r[i].name) == Some(r[i])
    decreases |patterns|
  {
    var p := patterns[0];
    var next := CollectStep(p, hits, v, found);
    var r := Collect(patterns[1..], hits, v, next);
    CollectExtends(patterns[1..], hits, v, next);
    if i >= |next| {
      CollectRecordsFirstHit(patterns[1..], hits, v, next, i);
      StepRecordsName(p, hits, v, found);
      LaterNameNew(patterns[1..], hits, v, next, i);
    } else {
      assert r[i] == next[i];
    }
  }

  /** After one pass of the loop body, an occurring pattern's canonical name is recorded. */
  lemma StepRecordsName(p: string, hits: string -> nat, v: Vocabulary, found: seq<Skill>)
    ensures hits(p) > 0 && v.normalize(p).Some? ==>
      v.normalize(p).value in Names(CollectStep(p, hits, v, found))
  {
    if hits(p) > 0 && v.normalize(p).Some? && v.normalize(p).value !in Names(found) {
      var next := found + [MakeSkill(v, v.normalize(p).value, hits(p))];
      assert Names(next)[|found|] == next[|found|].name;
    }
  }

  /** A record the loop adds later carries a name not recorded before. */
  lemma LaterNameNew(patterns: seq<string>, hits: string -> nat, v: Vocabulary, found: seq<Skill>, i: nat)
    requires NamesDistinct(found)
    requires |found| <= i < |Collect(patterns, hits, v, found)|
    ensures Collect(patterns, hits, v, found)[i].name !in Names(found)
  {
    var r := Collect(patterns, hits, v, found);
    CollectExtends(patterns, hits, v, found);
    CollectDistinct(patterns, hits, v, found);
    forall j | 0 <= j < |found|
      ensures Names(found)[j] != r[i].name
    {
      assert r[j] == found[j];
    }
  }

  lemma SameElementsKeepDistinctNames(a: seq<Skill>, b: seq<Skill>)
    requires multiset(a) == multiset(b)
    requires NamesDistinct(a)
    ensures NamesDistinct(b)
  {
    forall i, j | 0 <= i < j < |b|
      ensures b[i].name != b[j].name
    {
      if b[i].name == b[j].name {
        assert b[i] in multiset(a) && b[j] in multiset(a);
        var x :| 0 <= x < |a| && a[x] == b[i];
        var y :| 0 <= y < |a| && a[y] == b[j];
        assert x == y;
        AtMostOnce(a, a[x]);
        TwiceCounted(b, i, j);
        assert false;
      }
    }
  }

  /** With distinct names, no record occurs twice. */
  lemma {:induction false} AtMostOnce(a: seq<Skill>, s: Skill)
    requires NamesDistinct(a)
    ensures multiset(a)[s] <= 1
  {
    if a != [] {
      assert a == [a[0]] + a[1..];
      AtMostOnce(a[1..], s);
      if a[0] == s {
        assert s !in a[1..];
      }
    }
  }

  lemma TwiceCounted(b: seq<Skill>, i: nat, j: nat)
    requires i < j < |b| && b[i] == b[j]
    ensures multiset(b)[b[i]] >= 2
  {
    assert b == b[..j] + b[j..];
    assert b[i] in b[..j];
    assert b[j] in b[j..];
  }

  /**
   * `extractSkills` on the alias patterns `patterns` (longest first in the
   * source): nothing for empty text, otherwise one well-formed record per
   * canonical name that some pattern hits, taken from its first hitting
   * pattern, sorted by confidence with ties in detection order.
   */
  function ExtractSkillsFrom(patterns: seq<string>, text: string, hits: string -> nat): (r: seq<Skill>)
    ensures text == [] ==> r == []
    ensures Sorting.SortedDesc(r, ConfidenceOf)
    ensures NamesDistinct(r)
    ensures forall s :: s in r ==> WellFormedSkill(s) && FirstHit(patterns, hits, TheVocabulary, s.name) == Some(s)
    ensures text != [] ==> forall n :: n in Names(r) <==> FirstHit(patterns, hits, TheVocabulary, n).Some?
  {
    if text == [] then []
    else
      var found := Collect(patterns, hits, TheVocabulary, []);
      var r := Sorting.SortDesc(found, ConfidenceOf);
      CollectDistinct(patterns, hits, TheVocabulary, []);
      SameElementsKeepDistinctNames(found, r);
      DetectedRecords(patterns, hits, r);
      DetectedNames(patterns, hits, r);
      r
  }

  /** Every record of a reordering of the detected list is well formed and comes from its first hit. */
  lemma DetectedRecords(patterns: seq<string>, hits: string -> nat, r: seq<Skill>)
    requires multiset(r) == multiset(Collect(patterns, hits, TheVocabulary, []))
    ensures forall s :: s in r ==> WellFormedSkill(s) && FirstHit(patterns, hits, TheVocabulary, s.name) == Some(s)
  {
    forall s | s in r
      ensures WellFormedSkill(s) && FirstHit(patterns, hits, TheVocabulary, s.name) == Some(s)
    {
      DetectedRecord(patterns, hits, r, s);
    }
  }

  lemma DetectedRecord(patterns: seq<string>, hits: string -> nat, r: seq<Skill>, s: Skill)
    requires multiset(r) == multiset(Collect(patterns, hits, TheVocabulary, []))
    requires s in r
    ensures WellFormedSkill(s) && FirstHit(patterns, hits, TheVocabulary, s.name) == Some(s)
  {
    var found := Collect(patterns, hits, TheVocabulary, []);
    assert s in multiset(r);
    var i :| 0 <= i < |found| && found[i] == s;
    CollectRecordsFirstHit(patterns, hits, TheVocabulary, [], i);
    FirstHitWellFormed(patterns, hits, s.name);
  }

  /** A reordering of the detected list names exactly the names some pattern hits. */
  lemma DetectedNames(patterns: seq<string>, hits: string -> nat, r: seq<Skill>)
    requires multiset(r) == multiset(Collect(patterns, hits, TheVocabulary, []))
    ensures forall n :: n in Names(r) <==> FirstHit(patterns, hits, TheVocabulary, n).Some?
  {
    forall n
      ensures n in Names(r) <==> FirstHit(patterns, hits, TheVocabulary, n).Some?
    {
      DetectedName(patterns, hits, r, n);
    }
  }

  lemma DetectedName(patterns: seq<string>, hits: string -> nat, r: seq<Skill>, n: string)
    requires multiset(r) == multiset(Collect(patterns, hits, TheVocabulary, []))
    ensures n in Names(r) <==> FirstHit(patterns, hits, TheVocabulary, n).Some?
  {
    CollectFinds(patterns, hits, TheVocabulary, [], n);
    ReorderKeepsNames(Collect(patterns, hits, TheVocabulary, []), r, n);
  }

  /** Two lists with the same records name the same skills. */
  lemma ReorderKeepsNames(a: seq<Skill>, b: seq<Skill>, n: string)
    requires multiset(a) == multiset(b)
    ensures n in Names(a) <==> n in Names(b)
  {
    if n in Names(a) {
      var i :| 0 <= i < |a| && a[i].name == n;
      assert a[i] in multiset(b);
      var k :| 0 <= k < |b| && b[k] == a[i];
      assert Names(b)[k] == n;
    }
    if n in Names(b) {
      var k :| 0 <= k < |b| && b[k].name == n;
      assert b[k] in multiset(a);
      var i :| 0 <= i < |a| && a[i] == b[k];
      assert Names(a)[i] == n;
    }
  }

  /** `extractSkills(text)`: detection over `getAllSkillPatterns()`. */
  function ExtractSkills(text: string, hits: string -> nat): (r: seq<Skill>)
    ensures text == [] ==> r == []
    ensures Sorting.SortedDesc(r, ConfidenceOf)
    ensures NamesDistinct(r)
    ensures forall s :: s in r ==> WellFormedSkill(s) && 6.0 / 10.0 <= s.confidence <= 1.0
  {
    ExtractSkillsFrom(GetAllSkillPatterns(), text, hits)
  }

  // ---------------------------------------------------------------------------
  // Experience
  // ---------------------------------------------------------------------------

  /** A role found in the text: the cleaned title, the raw match, and a company once one is attached. */
  datatype Role = Role(title: string, raw: string, company: Option<string>)

  datatype Experience = Experience(roles: seq<Role>, totalYears: nat)

  /** The most roles kept, and the bounds on a plausible year count and a company name's length. */
  const MaxRoles: nat := 10
  const MaxEducation: nat := 5

  /** `match.trim().replace(/\s+/g, ' ')`. */
  function CleanTitle(m: string): string {
    CollapseSpaces(Trim(m))
  }

  /** Titles equal up to case, as `toLowerCase()` compares them. */
  predicate SameTitle(a: string, b: string) {
    ToLower(a) == ToLower(b)
  }

  predicate HasTitle(roles: seq<Role>, t: string) {
    exists i :: 0 <= i < |roles| && SameTitle(roles[i].title, t)
  }

  /** Titles differ from each other once lower-cased. */
  predicate TitlesDistinct(roles: seq<Role>) {
    forall i, j :: 0 <= i < j < |roles| ==> !SameTitle(roles[i].title, roles[j].title)
  }

  /**
   * The title loop: each title match (both title patterns, in order) is
   * cleaned and kept when longer than three characters and not already
   * present up to case.
   */
  function AddRoles(matches: seq<string>, roles: seq<Role>): seq<Role>
    decreases |matches|
  {
    if matches == [] then roles
    else AddRoles(matches[1..], AddRole(CleanTitle(matches[0]), matches[0], roles))
  }

  function AddRole(t: string, raw: string, roles: seq<Role>): (r: seq<Role>)
    ensures |roles| <= |r| && r[..|roles|] == roles
  {
    if |t| > 3 && !HasTitle(roles, t) then roles + [Role(t, raw, None)] else roles
  }

  /** The title loop only appends. */
  lemma {:induction false} AddRolesExtends(matches: seq<string>, roles: seq<Role>)
    ensures var r := AddRoles(matches, roles); |roles| <= |r| && r[..|roles|] == roles
    decreases |matches|
  {
    if matches != [] {
      var next := AddRole(CleanTitle(matches[0]), matches[0], roles);
      AddRolesExtends(matches[1..], next);
      var r := AddRoles(matches[1..], next);
      PrefixChain(roles, next, r);
    }
  }

  /** Kept titles stay distinct up to case. */
  lemma {:induction false} AddRolesDistinct(matches: seq<string>, roles: seq<Role>)
    requires TitlesDistinct(roles)
    ensures TitlesDistinct(AddRoles(matches, roles))
    decreases |matches|
  {
    if matches != [] {
      var t := CleanTitle(matches[0]);
      AddRoleDistinct(t, matches[0], roles);
      AddRolesDistinct(matches[1..], AddRole(t, matches[0], roles));
    }
  }

  /** One step of the title loop keeps the titles distinct up to case. */
  lemma AddRoleDistinct(t: string, raw: string, roles: seq<Role>)
    requires TitlesDistinct(roles)
    ensures TitlesDistinct(AddRole(t, raw, roles))
  {
    if |t| > 3 && !HasTitle(roles, t) {
      var r := roles + [Role(t, raw, None)];
      forall i, j | 0 <= i < j < |r|
        ensures !SameTitle(r[i].title, r[j].title)
      {
        assert r[i] == roles[i];
        if j == |roles| {
          assert r[j].title == t;
        } else {
          assert r[j] == roles[j];
        }
      }
    }
  }

  /** Every added role carries a cleaned title of more than three characters, from one of the matches, and no company. */
  lemma {:induction false} AddRolesShape(matches: seq<string>, roles: seq<Role>, i: nat)
    requires |roles| <= i < |AddRoles(matches, roles)|
    ensures var r := AddRoles(matches, roles)[i];
      r.raw in matches && r.title == CleanTitle(r.raw) && |r.title| > 3 && r.company.None?
    decreases |matches|
  {
    var t := CleanTitle(matches[0]);
    var next := AddRole(t, matches[0], roles);
    var all := AddRoles(matches, roles);
    assert all == AddRoles(matches[1..], next);
    AddRolesExtends(matches[1..], next);
    if i >= |next| {
      AddRolesShape(matches[1..], next, i);
      assert all[i].raw in matches[1..];
    } else {
      AddRoleNew(t, matches[0], roles, i);
      assert all[i] == all[..|next|][i];
    }
  }

  /** The role one step of the title loop appends. */
  lemma AddRoleNew(t: string, raw: string, roles: seq<Role>, i: nat)
    requires |roles| <= i < |AddRole(t, raw, roles)|
    ensures AddRole(t, raw, roles)[i] == Role(t, raw, None) && |t| > 3
  {
  }

  /** Every long enough title among the matches ends up represented up to case. */
  lemma {:induction false} AddRolesComplete(matches: seq<string>, roles: seq<Role>, m: string)
    requires m in matches && |CleanTitle(m)| > 3
    ensures HasTitle(AddRoles(matches, roles), CleanTitle(m))
    decreases |matches|
  {
    var t := CleanTitle(matches[0]);
    var next := AddRole(t, matches[0], roles);
    if m == matches[0] {
      AddRoleHas(t, matches[0], roles);
      AddRolesKeepsTitle(matches[1..], next, t);
    } else {
      AddRolesComplete(matches[1..], next, m);
    }
  }

  /** After one step of the title loop a long enough title is present up to case. */
  lemma AddRoleHas(t: string, raw: string, roles: seq<Role>)
    requires |t| > 3
    ensures HasTitle(AddRole(t, raw, roles), t)
  {
    if !HasTitle(roles, t) {
      var r := roles + [Role(t, raw, None)];
      assert r[|roles|].title == t;
    }
  }

  /** A title present up to case stays present through the rest of the title loop. */
  lemma AddRolesKeepsTitle(matches: seq<string>, roles: seq<Role>, t: string)
    requires HasTitle(roles, t)
    ensures HasTitle(AddRoles(matches, roles), t)
  {
    var i :| 0 <= i < |roles| && SameTitle(roles[i].title, t);
    AddRolesExtends(matches, roles);
    assert AddRoles(matches, roles)[i] == roles[i];
  }

  /** The largest year count strictly between 0 and 50, or `acc` when that is larger. */
  function MaxYears(years: seq<nat>, acc: nat): (r: nat)
    ensures r >= acc
    ensures r == acc || (r in years && 0 < r < 50)
    ensures forall y :: y in years && 0 < y < 50 ==> y <= r
    decreases |years|
  {
    if years == [] then acc
    else
      var y := years[0];
      var r := MaxYears(years[1..], if 0 < y < 50 then (if y > acc then y else acc) else acc);
      assert forall z :: z in years ==> z == y || z in years[1..];
      r
  }

  /** A company capture is kept when its trimmed length is from 3 to 49. */
  predicate PlausibleCompany(c: string) {
    2 < |c| < 50
  }

  /** Reference: the first company capture that passes the length check, trimmed. */
  function FirstCompany(captures: seq<string>): (r: Option<string>)
    ensures r.Some? ==> PlausibleCompany(r.value)
  {
    if captures == [] then None
    else if PlausibleCompany(Trim(captures[0])) then Some(Trim(captures[0]))
    else FirstCompany(captures[1..])
  }

  /**
   * The company loop: each plausible capture is given to the last role when
   * that role has no company yet.
   */
  function AttachCompanies(captures: seq<string>, roles: seq<Role>): (r: seq<Role>)
    ensures |r| == |roles|
    ensures forall i :: 0 <= i < |roles| ==> r[i].title == roles[i].title && r[i].raw == roles[i].raw
    ensures forall i :: 0 <= i < |roles| - 1 ==> r[i] == roles[i]
    decreases |captures|
  {
    if captures == [] then roles
    else AttachCompanies(captures[1..], AttachCompany(Trim(captures[0]), roles))
  }

  /** One pass of the company loop body: a plausible capture goes to a last role that has no company yet. */
  function AttachCompany(c: string, roles: seq<Role>): (r: seq<Role>)
    ensures |r| == |roles|
    ensures forall i :: 0 <= i < |roles| ==> r[i].title == roles[i].title && r[i].raw == roles[i].raw
    ensures forall i :: 0 <= i < |roles| - 1 ==> r[i] == roles[i]
  {
    if PlausibleCompany(c) && roles != [] && roles[|roles| - 1].company.None? then
      roles[|roles| - 1 := roles[|roles| - 1].(company := Some(c))]
    else roles
  }

  /** Only the last role gets a company, and it is the first plausible capture. */
  lemma {:induction false} AttachCompaniesLast(captures: seq<string>, roles: seq<Role>)
    requires roles != [] && roles[|roles| - 1].company.None?
    ensures AttachCompanies(captures, roles)[|roles| - 1].company == FirstCompany(captures)
  {
    if captures != [] {
      var c := Trim(captures[0]);
      if PlausibleCompany(c) {
        var next := roles[|roles| - 1 := roles[|roles| - 1].(company := Some(c))];
        AttachCompaniesKeepsSet(captures[1..], next);
      } else {
        AttachCompaniesLast(captures[1..], roles);
      }
    }
  }

  /** Once the last role has a company, later captures change nothing. */
  lemma {:induction false} AttachCompaniesKeepsSet(captures: seq<string>, roles: seq<Role>)
    requires roles != [] && roles[|roles| - 1].company.Some?
    ensures AttachCompanies(captures, roles) == roles
  {
    if captures != [] {
      AttachCompaniesKeepsSet(captures[1..], roles);
    }
  }

  /** All roles the text yields, before the cap of ten. */
  function AllRoles(titles: seq<string>, companies: seq<string>): seq<Role> {
    AttachCompanies(companies, AddRoles(titles, []))
  }

  /**
   * The full role list: titles longer than three characters and distinct up
   * to case, and no company on any role but the last.
   */
  lemma AllRolesShape(titles: seq<string>, companies: seq<string>)
    ensures var all := AllRoles(titles, companies);
      && TitlesDistinct(all)
      && (forall i :: 0 <= i < |all| ==> |all[i].title| > 3)
      && (forall i :: 0 <= i < |all| - 1 ==> all[i].company.None?)
  {
    var added := AddRoles(titles, []);
    var all := AllRoles(titles, companies);
    AddRolesDistinct(titles, []);
    forall i | 0 <= i < |added|
      ensures |added[i].title| > 3 && added[i].company.None?
    {
      AddRolesShape(titles, [], i);
    }
    assert forall i :: 0 <= i < |all| ==> all[i].title == added[i].title;
  }

  /**
   * `extractExperience`: at most ten roles with long enough, case-distinct
   * titles, and the largest plausible year count (0 when there is none).
   */
  function ExtractExperience(text: string, titles: seq<string>, years: seq<nat>, companies: seq<string>): (r: Experience)
    ensures text == [] ==> r == Experience([], 0)
    ensures |r.roles| <= MaxRoles
    ensures forall i :: 0 <= i < |r.roles| ==> |r.roles[i].title| > 3
    ensures TitlesDistinct(r.roles)
    ensures r.totalYears == 0 || (r.totalYears in years && 0 < r.totalYears < 50)
    ensures text != [] ==> forall y :: y in years && 0 < y < 50 ==> y <= r.totalYears
    ensures text != [] ==> var all := AllRoles(titles, companies);
      |r.roles| == (if |all| <= MaxRoles then |all| else MaxRoles) && r.roles == all[..|r.roles|]
  {
    if text == [] then Experience([], 0)
    else
      var all := AllRoles(titles, companies);
      AllRolesShape(titles, companies);
      var roles := Prefix(all, MaxRoles);
      assert TitlesDistinct(roles) && forall i :: 0 <= i < |roles| ==> |roles[i].title| > 3 by {
        RolesCut(all, |roles|);
      }
      Experience(roles, MaxYears(years, 0))
  }

  /** A cut of a role list keeps its titles long enough and distinct up to case. */
  lemma RolesCut(all: seq<Role>, n: nat)
    requires n <= |all| && TitlesDistinct(all) && forall i :: 0 <= i < |all| ==> |all[i].title| > 3
    ensures TitlesDistinct(all[..n]) && forall i :: 0 <= i < n ==> |all[..n][i].title| > 3
  {
    assert forall i :: 0 <= i < n ==> all[..n][i] == all[i];
  }

  /**
   * Company attachment: a role of the result has a company only when it is
   * the last role of the full list and the list was not cut at ten; that
   * company is the first plausible capture. With more than ten roles no role
   * keeps a company.
   */
  lemma CompanyAttachment(text: string, titles: seq<string>, years: seq<nat>, companies: seq<string>)
    requires text != []
    ensures var all := AllRoles(titles, companies);
            var roles := ExtractExperience(text, titles, years, companies).roles;
      && (forall i :: 0 <= i < |roles| && roles[i].company.Some? ==>
            i == |all| - 1 && |all| <= MaxRoles && roles[i].company == FirstCompany(companies))
      && (0 < |all| <= MaxRoles ==> roles[|roles| - 1].company == FirstCompany(companies))
  {
    var all := AllRoles(titles, companies);
    var roles := ExtractExperience(text, titles, years, companies).roles;
    assert roles == Prefix(all, MaxRoles) by {
      assert |Prefix(all, MaxRoles)| == |roles|;
    }
    CappedCompanies(titles, companies);
  }

  lemma CappedCompanies(titles: seq<string>, companies: seq<string>)
    ensures var all := AllRoles(titles, companies);
            var roles := Prefix(all, MaxRoles);
      && (forall i :: 0 <= i < |roles| && roles[i].company.Some? ==>
            i == |all| - 1 && |all| <= MaxRoles && roles[i].company == FirstCompany(companies))
      && (0 < |all| <= MaxRoles ==> roles[|roles| - 1].company == FirstCompany(companies))
  {
    var all := AllRoles(titles, companies);
    var roles := Prefix(all, MaxRoles);
    AllRolesShape(titles, companies);
    LastRoleCompany(titles, companies);
    assert forall i :: 0 <= i < |roles| ==> roles[i] == all[i];
  }

  /** The last role of the full list carries the first plausible company capture. */
  lemma LastRoleCompany(titles: seq<string>, companies: seq<string>)
    ensures var all := AllRoles(titles, companies);
      all != [] ==> all[|all| - 1].company == FirstCompany(companies)
  {
    var added := AddRoles(titles, []);
    LastAddedBare(titles);
    if added != [] {
      AttachCompaniesLast(companies, added);
    }
  }

  /** The title loop leaves the last role it adds without a company. */
  lemma LastAddedBare(titles: seq<string>)
    ensures var added := AddRoles(titles, []);
      added != [] ==> added[|added| - 1].company.None?
  {
    var added := AddRoles(titles, []);
    if added != [] {
      AddRolesShape(titles, [], |added| - 1);
    }
  }

  /** Every long enough title among the matches is represented, up to case, in the full role list. */
  lemma EveryTitleRepresented(titles: seq<string>, companies: seq<string>, m: string)
    requires m in titles && |CleanTitle(m)| > 3
    ensures HasTitle(AllRoles(titles, companies), CleanTitle(m))
  {
    var added := AddRoles(titles, []);
    AddRolesComplete(titles, [], m);
    var i :| 0 <= i < |added| && SameTitle(added[i].title, CleanTitle(m));
    assert AllRoles(titles, companies)[i].title == added[i].title;
  }

  // ---------------------------------------------------------------------------
  // Education
  // ---------------------------------------------------------------------------

  datatype DegreeLevel = Doctorate | Masters | Bachelors

  /** One degree pattern: the level it stands for and the field used when it captures none. */
  datatype DegreeRule = DegreeRule(level: DegreeLevel, defaultField: Option<string>)

  /** The six degree patterns, in the order they are tried. */
  const DegreeRules: seq<DegreeRule> := [
    DegreeRule(Doctorate, None),
    DegreeRule(Masters, None),
    DegreeRule(Masters, Some("Business Administration")),
    DegreeRule(Bachelors, None),
    DegreeRule(Bachelors, None),
    DegreeRule(Bachelors, Some("Computer Science"))
  ]

  /** One match of a degree pattern: the whole match and its field capture, if the pattern has one. */
  datatype DegreeMatch = DegreeMatch(whole: string, field: Option<string>)

  datatype Education = Education(level: DegreeLevel, field: string, raw: string)

  const MaxFieldLength: nat := 50

  /**
   * `match[1]?.trim() || defaultField || 'Unknown'`, then whitespace runs
   * collapsed and cut to fifty characters.
   */
  function CleanField(rule: DegreeRule, m: DegreeMatch): (r: string)
    ensures r != [] && |r| <= MaxFieldLength
  {
    var f :=
      if m.field.Some? && Trim(m.field.value) != [] then Trim(m.field.value)
      else if rule.defaultField.Some? && rule.defaultField.value != [] then rule.defaultField.value
      else "Unknown";
    Prefix(CollapseSpaces(f), MaxFieldLength)
  }

  predicate HasEntry(entries: seq<Education>, level: DegreeLevel, field: string) {
    exists i :: 0 <= i < |entries| && entries[i].level == level && ToLower(entries[i].field) == ToLower(field)
  }

  /** No two entries share a level and a field up to case. */
  predicate EntriesDistinct(entries: seq<Education>) {
    forall i, j :: 0 <= i < j < |entries| ==>
      entries[i].level != entries[j].level || ToLower(entries[i].field) != ToLower(entries[j].field)
  }

  predicate FieldsBounded(entries: seq<Education>) {
    forall i :: 0 <= i < |entries| ==> entries[i].field != [] && |entries[i].field| <= MaxFieldLength
  }

  /** The inner loop over one pattern's matches. */
  function AddEducation(rule: DegreeRule, matches: seq<DegreeMatch>, entries: seq<Education>): (r: seq<Education>)
    requires EntriesDistinct(entries) && FieldsBounded(entries)
    ensures EntriesDistinct(r) && FieldsBounded(r)
    ensures |entries| <= |r| && r[..|entries|] == entries
    ensures forall m :: m in matches ==> HasEntry(r, rule.level, CleanField(rule, m))
    decreases |matches|
  {
    if matches == [] then entries
    else
      var f := CleanField(rule, matches[0]);
      var next := AddEntry(rule, matches[0], entries);
      var r := AddEducation(rule, matches[1..], next);
      assert r[..|entries|] == entries by {
        PrefixChain(entries, next, r);
      }
      assert forall m :: m in matches ==> HasEntry(r, rule.level, CleanField(rule, m)) by {
        HasEntryExtends(next, r, rule.level, f);
        HeadAndTail(matches, m => HasEntry(r, rule.level, CleanField(rule, m)));
      }
      r
  }

  /** One step of the inner loop: the match's entry is pushed unless its level and field are present. */
  function AddEntry(rule: DegreeRule, m: DegreeMatch, entries: seq<Education>): (r: seq<Education>)
    requires EntriesDistinct(entries) && FieldsBounded(entries)
    ensures EntriesDistinct(r) && FieldsBounded(r)
    ensures HasEntry(r, rule.level, CleanField(rule, m))
    ensures r == entries || r == entries + [Education(rule.level, CleanField(rule, m), m.whole)]
    ensures r == entries <==> HasEntry(entries, rule.level, CleanField(rule, m))
  {
    var f := CleanField(rule, m);
    if HasEntry(entries, rule.level, f) then entries
    else
      var r := entries + [Education(rule.level, f, m.whole)];
      assert r[|entries|].field == f;
      r
  }

  /** The outer loop over the degree patterns from position `k` on; `found(k)` lists pattern `k`'s matches. */
  function EducationFrom(k: nat, found: nat -> seq<DegreeMatch>, entries: seq<Education>): (r: seq<Education>)
    requires EntriesDistinct(entries) && FieldsBounded(entries)
    ensures EntriesDistinct(r) && FieldsBounded(r)
    ensures |entries| <= |r| && r[..|entries|] == entries
    ensures forall j, m :: k <= j < |DegreeRules| && m in found(j) ==>
      HasEntry(r, DegreeRules[j].level, CleanField(DegreeRules[j], m))
    decreases |DegreeRules| - k
  {
    if k >= |DegreeRules| then entries
    else
      var next := AddEducation(DegreeRules[k], found(k), entries);
      var r := EducationFrom(k + 1, found, next);
      assert r[..|entries|] == entries by {
        PrefixChain(entries, next, r);
      }
      forall m | m in found(k)
        ensures HasEntry(r, DegreeRules[k].level, CleanField(DegreeRules[k], m))
      {
        HasEntryExtends(next, r, DegreeRules[k].level, CleanField(DegreeRules[k], m));
      }
      r
  }

  /** An entry present in a list is still present once the list is extended. */
  lemma HasEntryExtends(a: seq<Education>, b: seq<Education>, level: DegreeLevel, field: string)
    requires |a| <= |b| && b[..|a|] == a && HasEntry(a, level, field)
    ensures HasEntry(b, level, field)
  {
    var i :| 0 <= i < |a| && a[i].level == level && ToLower(a[i].field) == ToLower(field);
    assert b[i] == b[..|a|][i];
  }

  /**
   * `extractEducation`: the entries of all degree matches, cut to the first
   * five, each with a non-empty field of at most fifty characters, no two
   * with the same level and field up to case.
   */
  function ExtractEducation(text: string, found: nat -> seq<DegreeMatch>): (r: seq<Education>)
    ensures text == [] ==> r == []
    ensures |r| <= MaxEducation
    ensures FieldsBounded(r)
    ensures EntriesDistinct(r)
    ensures text != [] ==> var all := EducationFrom(0, found, []);
      |r| == (if |all| <= MaxEducation then |all| else MaxEducation) && r == all[..|r|]
  {
    if text == [] then []
    else
      var all := EducationFrom(0, found, []);
      var r := Prefix(all, MaxEducation);
      assert EntriesDistinct(r) && FieldsBounded(r) by {
        EntriesCut(all, |r|);
      }
      r
  }

  /** A cut of a list of entries keeps them distinct and bounded. */
  lemma EntriesCut(all: seq<Education>, n: nat)
    requires n <= |all| && EntriesDistinct(all) && FieldsBounded(all)
    ensures EntriesDistinct(all[..n]) && FieldsBounded(all[..n])
  {
    assert forall i :: 0 <= i < n ==> all[..n][i] == all[i];
  }

  /** The entry one match of pattern `j` makes. */
  function EntryOf(j: nat, m: DegreeMatch): Education
    requires j < |DegreeRules|
  {
    Education(DegreeRules[j].level, CleanField(DegreeRules[j], m), m.whole)
  }

  /** An entry made by some match of some degree pattern. */
  predicate FromMatch(e: Education, found: nat -> seq<DegreeMatch>) {
    exists j: nat, m :: j < |DegreeRules| && m in found(j) && e == EntryOf(j, m)
  }

  /** The inner loop only adds entries made by matches of its pattern. */
  lemma {:induction false} AddEducationSound(k: nat, found: nat -> seq<DegreeMatch>, ms: seq<DegreeMatch>, entries: seq<Education>)
    requires k < |DegreeRules| && EntriesDistinct(entries) && FieldsBounded(entries)
    requires forall m :: m in ms ==> m in found(k)
    requires AllFromMatches(entries, found)
    ensures AllFromMatches(AddEducation(DegreeRules[k], ms, entries), found)
    decreases |ms|
  {
    if ms != [] {
      var next := AddEntry(DegreeRules[k], ms[0], entries);
      assert AllFromMatches(next, found) by {
        assert ms[0] in ms;
        if next != entries {
          MadeByMatch(k, ms[0], found);
          SoundAppend(entries, EntryOf(k, ms[0]), found);
        }
      }
      assert forall m :: m in ms[1..] ==> m in ms;
      AddEducationSound(k, found, ms[1..], next);
    }
  }

  predicate AllFromMatches(entries: seq<Education>, found: nat -> seq<DegreeMatch>) {
    forall i :: 0 <= i < |entries| ==> FromMatch(entries[i], found)
  }

  lemma MadeByMatch(j: nat, m: DegreeMatch, found: nat -> seq<DegreeMatch>)
    requires j < |DegreeRules| && m in found(j)
    ensures FromMatch(EntryOf(j, m), found)
  {
  }

  lemma SoundAppend(entries: seq<Education>, e: Education, found: nat -> seq<DegreeMatch>)
    requires AllFromMatches(entries, found) && FromMatch(e, found)
    ensures AllFromMatches(entries + [e], found)
  {
    forall i | 0 <= i < |entries + [e]|
      ensures FromMatch((entries + [e])[i], found)
    {
      if i < |entries| {
        assert (entries + [e])[i] == entries[i];
      } else {
        assert (entries + [e])[i] == e;
      }
    }
  }

  /** The outer loop only adds entries made by degree matches. */
  lemma {:induction false} EducationFromSound(k: nat, found: nat -> seq<DegreeMatch>, entries: seq<Education>)
    requires EntriesDistinct(entries) && FieldsBounded(entries)
    requires AllFromMatches(entries, found)
    ensures AllFromMatches(EducationFrom(k, found, entries), found)
    decreases |DegreeRules| - k
  {
    if k < |DegreeRules| {
      AddEducationSound(k, found, found(k), entries);
      EducationFromSound(k + 1, found, AddEducation(DegreeRules[k], found(k), entries));
    }
  }

  /** Every extracted entry is the one some degree match makes. */
  lemma EveryEntryFromAMatch(text: string, found: nat -> seq<DegreeMatch>, i: nat)
    requires i < |ExtractEducation(text, found)|
    ensures FromMatch(ExtractEducation(text, found)[i], found)
  {
    EducationFromSound(0, found, []);
    var all := EducationFrom(0, found, []);
    assert ExtractEducation(text, found)[i] == all[i];
  }

  /** Every degree match is represented, by level and field up to case, before the cut to five. */
  lemma EveryDegreeRepresented(found: nat -> seq<DegreeMatch>, j: nat, m: DegreeMatch)
    requires j < |DegreeRules| && m in found(j)
    ensures HasEntry(EducationFrom(0, found, []), DegreeRules[j].level, CleanField(DegreeRules[j], m))
  {
  }

  // ---------------------------------------------------------------------------
  // Summary
  // ---------------------------------------------------------------------------

  const MaxSummary: nat := 500
  const FallbackSummary: nat := 200

  /**
   * `extractSummary`: the capture of the section pattern, else of the
   * leading-text pattern (each used only when non-empty), trimmed, with
   * whitespace runs collapsed and cut to 500 characters; without either, the
   * first 200 characters, trimmed and collapsed.
   */
  function ExtractSummary(text: string, section: Option<string>, lead: Option<string>): (r: string)
    ensures text == [] ==> r == []
    ensures |r| <= MaxSummary
    ensures (section.None? || section.value == []) && (lead.None? || lead.value == []) ==> |r| <= FallbackSummary
  {
    if text == [] then []
    else if section.Some? && section.value != [] then Prefix(CollapseSpaces(Trim(section.value)), MaxSummary)
    else if lead.Some? && lead.value != [] then Prefix(CollapseSpaces(Trim(lead.value)), MaxSummary)
    else CollapseSpaces(Trim(Prefix(text, FallbackSummary)))
  }

  // ---------------------------------------------------------------------------
  // Profile
  // ---------------------------------------------------------------------------

  /** Everything the profiler's regular expressions find in one text. */
  datatype TextMatches = TextMatches(
    hits: string -> nat,                 // occurrences of each alias pattern in the lower-cased text
    titles: seq<string>,                 // matches of the two title patterns, in order
    years: seq<nat>,                     // year captures of the three year patterns, in order
    companies: seq<string>,              // captures of the company pattern, in order
    degrees: nat -> seq<DegreeMatch>,    // matches of each degree pattern, by position
    section: Option<string>,             // capture of the summary-section pattern
    lead: Option<string>)                // capture of the leading-text pattern

  datatype ProfileKind = ResumeProfile | JobProfile

  datatype Profile = Profile(
    skills: seq<Skill>,
    experience: seq<Role>,
    totalYearsExperience: nat,
    education: seq<Education>,
    summary: string,
    requiredSkills: Option<seq<Skill>>,
    preferredSkills: Option<seq<Skill>>)

  const RequiredThreshold: real := 7.0 / 10.0
  const PreferredThreshold: real := 1.0 / 2.0

  predicate IsRequired(s: Skill) {
    s.confidence >= RequiredThreshold
  }

  predicate IsPreferred(s: Skill) {
    PreferredThreshold <= s.confidence < RequiredThreshold
  }

  /**
   * The job split: required skills have confidence at least 0.7, preferred
   * ones from 0.5 up to 0.7, both in the order of `skills`.
   */
  function SplitSkills(skills: seq<Skill>): (r: (seq<Skill>, seq<Skill>))
    ensures forall s :: s in r.0 <==> s in skills && s.confidence >= RequiredThreshold
    ensures forall s :: s in r.1 <==> s in skills && PreferredThreshold <= s.confidence < RequiredThreshold
  {
    (Filter(skills, IsRequired), Filter(skills, IsPreferred))
  }

  /** When no confidence is below 0.5, the split holds every skill exactly once. */
  lemma SplitSkillsPartition(skills: seq<Skill>)
    requires forall s :: s in skills ==> s.confidence >= PreferredThreshold
    ensures multiset(SplitSkills(skills).0) + multiset(SplitSkills(skills).1) == multiset(skills)
    ensures |SplitSkills(skills).0| + |SplitSkills(skills).1| == |skills|
  {
    FilterPartition(skills, IsRequired, IsPreferred);
  }

  /**
   * `generateProfile`: the four extractions, and for a job the split of the
   * skills into required and preferred, which together hold every skill
   * exactly once because detected confidences are at least 0.6.
   */
  function GenerateProfile(text: string, kind: ProfileKind, m: TextMatches): (r: Profile)
    ensures r.skills == ExtractSkills(text, m.hits)
    ensures kind == ResumeProfile ==> r.requiredSkills.None? && r.preferredSkills.None?
    ensures kind == JobProfile ==>
      && r.requiredSkills == Some(SplitSkills(r.skills).0)
      && r.preferredSkills == Some(SplitSkills(r.skills).1)
      && multiset(r.requiredSkills.value) + multiset(r.preferredSkills.value) == multiset(r.skills)
  {
    var base := Extractions(text, m);
    if kind == JobProfile then WithSkillSplit(base) else base
  }

  /** Every kind of profile carries the extracted experience, education and summary. */
  lemma GenerateProfileFields(text: string, kind: ProfileKind, m: TextMatches)
    ensures var r := GenerateProfile(text, kind, m);
      var e := ExtractExperience(text, m.titles, m.years, m.companies);
      && r.experience == e.roles && r.totalYearsExperience == e.totalYears
      && r.education == ExtractEducation(text, m.degrees)
      && r.summary == ExtractSummary(text, m.section, m.lead)
  {
  }

  /** A job profile also lists its skills split into required and preferred. */
  function WithSkillSplit(p: Profile): (r: Profile)
    requires forall s :: s in p.skills ==> s.confidence >= PreferredThreshold
    ensures r.skills == p.skills
    ensures r.experience == p.experience && r.totalYearsExperience == p.totalYearsExperience
    ensures r.education == p.education && r.summary == p.summary
    ensures r.requiredSkills == Some(SplitSkills(p.skills).0)
    ensures r.preferredSkills == Some(SplitSkills(p.skills).1)
    ensures multiset(r.requiredSkills.value) + multiset(r.preferredSkills.value) == multiset(r.skills)
  {
    SplitSkillsPartition(p.skills);
    p.(requiredSkills := Some(SplitSkills(p.skills).0), preferredSkills := Some(SplitSkills(p.skills).1))
  }

  /** The profile fields every kind of text gets. */
  function Extractions(text: string, m: TextMatches): (r: Profile)
    ensures r.skills == ExtractSkills(text, m.hits)
    ensures r.requiredSkills.None? && r.preferredSkills.None?
    ensures forall s :: s in r.skills ==> s.confidence >= PreferredThreshold
  {
    var experience := ExtractExperience(text, m.titles, m.years, m.companies);
    Profile(ExtractSkills(text, m.hits), experience.roles, experience.totalYears,
            ExtractEducation(text, m.degrees), ExtractSummary(text, m.section, m.lead), None, None)
  }
}
