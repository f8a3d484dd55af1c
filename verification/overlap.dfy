/**
 * The skill-overlap analysis of the matching engine: which required skills a
 * candidate has, which are missing, which preferred skills count as matches,
 * which candidate skills are bonus, and the resulting skill score.
 *
 * Skills are compared by a comparison key: lower case, with the separators
 * `.`, `-`, `_`, `/` and whitespace removed, so "Node.js" and "nodejs" meet.
 */
module Overlap {
  import opened Common

  /** A skill as the analysis reads it; an absent category is the empty string. */
  datatype SkillRef = SkillRef(name: string, category: string)

  /** One line of the matched, missing or bonus lists (the `type` is always 'exact'). */
  datatype SkillMatch = SkillMatch(name: string, category: string, similarity: real)

  // ---------------------------------------------------------------------------
  // Comparison key
  // ---------------------------------------------------------------------------

  predicate IsSeparator(c: char) {
    c == '.' || c == '-' || c == '_' || c == '/' || IsSpace(c)
  }

  predicate Kept(c: char) { !IsSeparator(c) }

  /**
   * `name.toLowerCase().replace(/[.\-_/\s]+/g, '')`. The source ends with a
   * `.trim()` as well; it never changes the key (see `CompareKeyTrimmed`).
   */
  function CompareKey(name: string): string {
    Filter(ToLower(name), Kept)
  }

  /** The trailing `trim` is a no-op: no whitespace is left once the separators go. */
  lemma CompareKeyTrimmed(name: string)
    ensures Trim(CompareKey(name)) == CompareKey(name)
  {
    var k := CompareKey(name);
    assert k != [] ==> k[0] in k && k[|k| - 1] in k;
    TrimOfTrimmed(k);
  }

  /** The key holds exactly the lower-cased characters of the name that are not separators. */
  lemma CompareKeyChars(name: string, c: char)
    ensures c in CompareKey(name) <==> Kept(c) && c in ToLower(name)
    ensures c in CompareKey(name) ==> !IsUpper(c)
  {
  }

  /** Comparing keys of keys changes nothing: the key is a fixed point. */
  lemma CompareKeyIdempotent(name: string)
    ensures CompareKey(CompareKey(name)) == CompareKey(name)
  {
    var k := CompareKey(name);
    assert NoUpper(k) by {
      forall i | 0 <= i < |k| ensures !IsUpper(k[i]) {
        assert k[i] in k;
        CompareKeyChars(name, k[i]);
      }
    }
    NoUpperLowerIsSelf(k);
    FilterAll(k, Kept);
  }

  /** The key ignores letter case. */
  lemma CompareKeyIgnoresCase(name: string)
    ensures CompareKey(ToLower(name)) == CompareKey(name)
  {
    ToLowerIdempotent(name);
  }

  /** The key ignores a separator wherever it is inserted. */
  lemma CompareKeyIgnoresSeparator(a: string, c: char, b: string)
    requires IsSeparator(c)
    ensures CompareKey(a + [c] + b) == CompareKey(a + b)
  {
    var la, lb := ToLower(a), ToLower(b);
    ToLowerAppend(a + [c], b);
    ToLowerAppend(a, [c]);
    ToLowerAppend(a, b);
    assert ToLower([c]) == [LowerChar(c)];
    assert ToLower(a + [c] + b) == la + [LowerChar(c)] + lb;
    FilterAppend(la + [LowerChar(c)], lb, Kept);
    FilterSnoc(la, LowerChar(c), Kept);
    FilterAppend(la, lb, Kept);
  }

  // ---------------------------------------------------------------------------
  // The candidate index: a JavaScript Map from key to skill
  //
  // The index and the passes below take the key function as a parameter
  // `key`; the analysis instantiates it with `CompareKey`.
  // ---------------------------------------------------------------------------

  /** The keys of a list of skills, in order. */
  function Keys(key: string -> string, skills: seq<SkillRef>): (r: seq<string>)
    ensures |r| == |skills|
    ensures forall i :: 0 <= i < |skills| ==> r[i] == key(skills[i].name)
  {
    if skills == [] then [] else [key(skills[0].name)] + Keys(key, skills[1..])
  }

  lemma KeysSnoc(key: string -> string, skills: seq<SkillRef>, s: SkillRef)
    ensures Keys(key, skills + [s]) == Keys(key, skills) + [key(s.name)]
  {
    assert forall i :: 0 <= i < |skills| ==> (skills + [s])[i] == skills[i];
  }

  /** One entry of the Map, in insertion order. */
  datatype Entry = Entry(key: string, skill: SkillRef)

  function EntryKeys(index: seq<Entry>): (r: seq<string>)
    ensures |r| == |index|
    ensures forall i :: 0 <= i < |index| ==> r[i] == index[i].key
  {
    if index == [] then [] else [index[0].key] + EntryKeys(index[1..])
  }

  /** `Map.prototype.has`. */
  predicate HasKey(index: seq<Entry>, k: string) {
    k in EntryKeys(index)
  }

  /** The Map invariant: no key twice. */
  predicate DistinctKeys(index: seq<Entry>) {
    forall i, j :: 0 <= i < j < |index| ==> index[i].key != index[j].key
  }

  /**
   * `Map.prototype.set`: a present key keeps its position and takes the new
   * value; an absent key is appended. Nothing else changes.
   */
  function SetEntry(index: seq<Entry>, k: string, s: SkillRef): (r: seq<Entry>)
    requires DistinctKeys(index)
    ensures DistinctKeys(r)
    ensures forall k' :: HasKey(r, k') <==> HasKey(index, k') || k' == k
    ensures |r| == if HasKey(index, k) then |index| else |index| + 1
    ensures forall i :: 0 <= i < |index| ==> r[i].key == index[i].key
    ensures forall i :: 0 <= i < |r| && r[i].key == k ==> r[i].skill == s
    ensures forall i :: 0 <= i < |r| && r[i].key != k ==> i < |index| && r[i] == index[i]
  {
    var j := KeyIndex(index, k);
    if j < |index| then
      SetExisting(index, k, s, j);
      index[j := Entry(k, s)]
    else
      SetNew(index, k, s);
      index + [Entry(k, s)]
  }

  /** `r` is `index` after setting `k` to `s`, as the contract of `SetEntry` describes it. */
  ghost predicate SetsKey(index: seq<Entry>, k: string, s: SkillRef, r: seq<Entry>) {
    && DistinctKeys(r)
    && (forall k' :: HasKey(r, k') <==> HasKey(index, k') || k' == k)
    && |r| == (if HasKey(index, k) then |index| else |index| + 1)
    && (forall i :: 0 <= i < |index| ==> r[i].key == index[i].key)
    && (forall i :: 0 <= i < |r| && r[i].key == k ==> r[i].skill == s)
    && (forall i :: 0 <= i < |r| && r[i].key != k ==> i < |index| && r[i] == index[i])
  }

  /** Setting a present key overwrites its entry in place. */
  lemma SetExisting(index: seq<Entry>, k: string, s: SkillRef, j: nat)
    requires DistinctKeys(index) && j < |index| && index[j].key == k
    ensures SetsKey(index, k, s, index[j := Entry(k, s)])
  {
    var r := index[j := Entry(k, s)];
    assert EntryKeys(r) == EntryKeys(index);
    assert EntryKeys(index)[j] == k;
  }

  /** Setting an absent key appends its entry. */
  lemma SetNew(index: seq<Entry>, k: string, s: SkillRef)
    requires DistinctKeys(index)
    requires forall i :: 0 <= i < |index| ==> index[i].key != k
    ensures SetsKey(index, k, s, index + [Entry(k, s)])
  {
    var r := index + [Entry(k, s)];
    assert EntryKeys(r) == EntryKeys(index) + [k];
    assert !HasKey(index, k);
  }

  /** The position of key `k`, or the length of the index when `k` is absent. */
  function KeyIndex(index: seq<Entry>, k: string): (j: nat)
    ensures j <= |index|
    ensures j < |index| ==> index[j].key == k
    ensures j == |index| ==> forall i :: 0 <= i < |index| ==> index[i].key != k
  {
    if index == [] then 0
    else if index[0].key == k then 0
    else 1 + KeyIndex(index[1..], k)
  }

  /** The candidate's skills by key: `resumeSkillMap`. */
  function CandidateIndex(key: string -> string, resume: seq<SkillRef>): (r: seq<Entry>)
    ensures DistinctKeys(r)
    ensures forall k :: HasKey(r, k) <==> k in Keys(key, resume)
    ensures forall i :: 0 <= i < |r| ==> r[i].key == key(r[i].skill.name)
  {
    if resume == [] then []
    else
      var init := resume[..|resume| - 1];
      var s := resume[|resume| - 1];
      assert resume == init + [s];
      KeysSnoc(key, init, s);
      SetEntry(CandidateIndex(key, init), key(s.name), s)
  }

  /** The last skill of the list with key `k`, the one a Map keeps for it. */
  function LastWithKey(key: string -> string, skills: seq<SkillRef>, k: string): (r: Option<SkillRef>)
    ensures r.Some? <==> k in Keys(key, skills)
    ensures r.Some? ==> r.value in skills && key(r.value.name) == k
  {
    if skills == [] then None
    else
      var init := skills[..|skills| - 1];
      var s := skills[|skills| - 1];
      assert skills == init + [s];
      KeysSnoc(key, init, s);
      if key(s.name) == k then Some(s) else LastWithKey(key, init, k)
  }

  /** Each key of the index holds the last candidate skill written under it. */
  lemma {:induction false} CandidateIndexLastWriter(key: string -> string, resume: seq<SkillRef>, i: nat)
    requires i < |CandidateIndex(key, resume)|
    ensures LastWithKey(key, resume, CandidateIndex(key, resume)[i].key) == Some(CandidateIndex(key, resume)[i].skill)
  {
    var r := CandidateIndex(key, resume);
    var init := resume[..|resume| - 1];
    var s := resume[|resume| - 1];
    if r[i].key != key(s.name) {
      CandidateIndexLastWriter(key, init, i);
    }
  }

  // ---------------------------------------------------------------------------
  // The required and preferred passes
  // ---------------------------------------------------------------------------

  /** The `category || 'other'` default. */
  function CategoryOr(c: string): (r: string)
    ensures r != []
    ensures c != [] ==> r == c
  {
    if c == [] then "other" else c
  }

  function AsMatch(s: SkillRef, similarity: real): (r: SkillMatch)
    ensures r.name == s.name && r.similarity == similarity
  {
    SkillMatch(s.name, CategoryOr(s.category), similarity)
  }

  /** The match lines of a list of skills, in order, all with one similarity. */
  function Tag(skills: seq<SkillRef>, similarity: real): (r: seq<SkillMatch>)
    ensures |r| == |skills|
    ensures forall i :: 0 <= i < |skills| ==> r[i] == AsMatch(skills[i], similarity)
  {
    if skills == [] then [] else [AsMatch(skills[0], similarity)] + Tag(skills[1..], similarity)
  }

  lemma TagSnoc(skills: seq<SkillRef>, s: SkillRef, similarity: real)
    ensures Tag(skills + [s], similarity) == Tag(skills, similarity) + [AsMatch(s, similarity)]
  {
    assert forall i :: 0 <= i < |skills| ==> (skills + [s])[i] == skills[i];
  }

  /** The accumulators of the passes: matched, missing, and the matched keys. */
  datatype Tally = Tally(matched: seq<SkillMatch>, missing: seq<SkillMatch>, names: set<string>)

  /** Whether the candidate has a skill, by key. */
  function Present(key: string -> string, index: seq<Entry>): SkillRef -> bool {
    (s: SkillRef) => HasKey(index, key(s.name))
  }

  function Absent(key: string -> string, index: seq<Entry>): SkillRef -> bool {
    (s: SkillRef) => !HasKey(index, key(s.name))
  }

  /** One step of the loop over required skills. */
  function RequiredStep(key: string -> string, index: seq<Entry>, t: Tally, req: SkillRef): Tally {
    var k := key(req.name);
    if HasKey(index, k) then Tally(t.matched + [AsMatch(req, 1.0)], t.missing, t.names + {k})
    else Tally(t.matched, t.missing + [AsMatch(req, 0.0)], t.names)
  }

  /**
   * The loop over required skills. Its result is described independently of
   * the loop: the present required skills in order with similarity 1, the
   * absent ones in order with similarity 0, and the keys of the present ones.
   */
  function RequiredPass(key: string -> string, index: seq<Entry>, required: seq<SkillRef>): (r: Tally)
    ensures r.matched == Tag(Filter(required, Present(key, index)), 1.0)
    ensures r.missing == Tag(Filter(required, Absent(key, index)), 0.0)
  {
    if required == [] then Tally([], [], {})
    else
      var init := required[..|required| - 1];
      var req := required[|required| - 1];
      assert required == init + [req];
      FilterSnoc(init, req, Present(key, index));
      FilterSnoc(init, req, Absent(key, index));
      TagSnoc(Filter(init, Present(key, index)), req, 1.0);
      TagSnoc(Filter(init, Absent(key, index)), req, 0.0);
      RequiredStep(key, index, RequiredPass(key, index, init), req)
  }

  /** The keys the required pass records are those of the required skills the candidate has. */
  lemma {:induction false} RequiredNames(key: string -> string, index: seq<Entry>, required: seq<SkillRef>, k: string)
    ensures k in RequiredPass(key, index, required).names <==> k in Keys(key, required) && HasKey(index, k)
  {
    if required != [] {
      var init := required[..|required| - 1];
      var req := required[|required| - 1];
      assert required == init + [req];
      KeysSnoc(key, init, req);
      RequiredNames(key, index, init, k);
      RequiredStepNames(key, index, RequiredPass(key, index, init), req, k);
    }
  }

  /** One required step records the key of the skill when the candidate has it. */
  lemma RequiredStepNames(key: string -> string, index: seq<Entry>, t: Tally, req: SkillRef, k: string)
    ensures k in RequiredStep(key, index, t, req).names <==> k in t.names || (k == key(req.name) && HasKey(index, k))
  {
  }

  /** Every required skill lands in exactly one of matched and missing. */
  lemma RequiredPartition(key: string -> string, index: seq<Entry>, required: seq<SkillRef>)
    ensures |Filter(required, Present(key, index))| + |Filter(required, Absent(key, index))| == |required|
    ensures multiset(Filter(required, Present(key, index))) + multiset(Filter(required, Absent(key, index)))
         == multiset(required)
  {
    FilterPartition(required, Present(key, index), Absent(key, index));
  }

  /** One step of the loop over preferred skills. */
  function PreferredStep(key: string -> string, index: seq<Entry>, t: Tally, pref: SkillRef): Tally {
    var k := key(pref.name);
    if HasKey(index, k) && k !in t.names then Tally(t.matched + [AsMatch(pref, 0.8)], t.missing, t.names + {k})
    else t
  }

  /** `m` is the line of a preferred skill the candidate has and `names` had not matched. */
  ghost predicate PreferredLine(key: string -> string, index: seq<Entry>, names: set<string>, prefs: seq<SkillRef>, m: SkillMatch) {
    exists j :: 0 <= j < |prefs| && m == AsMatch(prefs[j], 0.8)
      && HasKey(index, key(prefs[j].name)) && key(prefs[j].name) !in names
  }

  /**
   * The loop over preferred skills, from the tally of the required pass. It
   * leaves missing alone, extends matched, adds a line only for a preferred
   * skill the candidate has whose key was not matched before, and never adds
   * two lines with one key.
   */
  function PreferredPass(key: string -> string, index: seq<Entry>, start: Tally, prefs: seq<SkillRef>): (r: Tally)
    ensures r.missing == start.missing
    ensures start.names <= r.names
    ensures |start.matched| <= |r.matched| && r.matched[..|start.matched|] == start.matched
    ensures forall i :: |start.matched| <= i < |r.matched| ==> PreferredLine(key, index, start.names, prefs, r.matched[i])
    ensures forall i :: |start.matched| <= i < |r.matched| ==>
              key(r.matched[i].name) in r.names && key(r.matched[i].name) !in start.names
    ensures forall i, j :: |start.matched| <= i < j < |r.matched| ==>
              key(r.matched[i].name) != key(r.matched[j].name)
    ensures forall k :: k in r.names <==> k in start.names || (k in Keys(key, prefs) && HasKey(index, k))
    ensures r.matched == start.matched + Tag(ChosenPrefs(key, index, start.names, prefs), 0.8)
  {
    if prefs == [] then start
    else
      var init := prefs[..|prefs| - 1];
      var pref := prefs[|prefs| - 1];
      assert prefs == init + [pref];
      var t := PreferredPass(key, index, start, init);
      var n := |start.matched|;
      PreferredStepExtends(key, index, t, pref);
      PreferredStepLines(key, index, start.names, init, pref, t, n);
      PreferredStepKeys(key, index, start.names, pref, t, n);
      PreferredStepChosen(key, index, start, init, pref, t);
      var r := PreferredStep(key, index, t, pref);
      assert r.matched[..n] == r.matched[..|t.matched|][..n];
      r
  }

  /**
   * The preferred skills that earn a line, defined without the loop: those
   * the candidate has, whose key was not matched before, and that are the
   * first preferred skill with their key, in the order of the list.
   */
  function ChosenPrefs(key: string -> string, index: seq<Entry>, names: set<string>, prefs: seq<SkillRef>): (r: seq<SkillRef>)
    ensures |r| <= |prefs|
    ensures forall s :: s in r ==> s in prefs && HasKey(index, key(s.name)) && key(s.name) !in names
  {
    if prefs == [] then []
    else
      var init := prefs[..|prefs| - 1];
      var p := prefs[|prefs| - 1];
      var k := key(p.name);
      ChosenPrefs(key, index, names, init)
        + (if HasKey(index, k) && k !in names && k !in Keys(key, init) then [p] else [])
  }

  /** One preferred step adds the line of the next chosen skill, and records its key. */
  lemma PreferredStepChosen(key: string -> string, index: seq<Entry>, start: Tally, init: seq<SkillRef>,
                            pref: SkillRef, t: Tally)
    requires t.matched == start.matched + Tag(ChosenPrefs(key, index, start.names, init), 0.8)
    requires forall k :: k in t.names <==> k in start.names || (k in Keys(key, init) && HasKey(index, k))
    ensures var r := PreferredStep(key, index, t, pref);
      && (forall k :: k in r.names <==> k in start.names || (k in Keys(key, init + [pref]) && HasKey(index, k)))
      && r.matched == start.matched + Tag(ChosenPrefs(key, index, start.names, init + [pref]), 0.8)
  {
    var k := key(pref.name);
    var isNew := HasKey(index, k) && k !in start.names && k !in Keys(key, init);
    assert HasKey(index, k) && k !in t.names <==> isNew;
    PreferredStepNamesSnoc(key, index, start.names, init, pref, t);
    var chosen := ChosenPrefs(key, index, start.names, init);
    var r := PreferredStep(key, index, t, pref);
    ChosenSnoc(key, index, start.names, init, pref);
    if isNew {
      assert r.matched == t.matched + [AsMatch(pref, 0.8)];
      TagSnoc(chosen, pref, 0.8);
      AppendAssoc(start.matched, Tag(chosen, 0.8), [AsMatch(pref, 0.8)]);
    } else {
      assert r.matched == t.matched;
      assert chosen + [] == chosen;
    }
  }

  lemma AppendAssoc<T>(a: seq<T>, b: seq<T>, c: seq<T>)
    ensures (a + b) + c == a + (b + c)
  {
  }

  /** `ChosenPrefs` on a list with one more skill. */
  lemma ChosenSnoc(key: string -> string, index: seq<Entry>, names: set<string>, init: seq<SkillRef>, p: SkillRef)
    ensures var k := key(p.name);
      ChosenPrefs(key, index, names, init + [p])
        == ChosenPrefs(key, index, names, init) + (if HasKey(index, k) && k !in names && k !in Keys(key, init) then [p] else [])
  {
    assert (init + [p])[..|init|] == init;
  }

  /** One preferred step records the key of the skill when the candidate has it. */
  lemma PreferredStepNamesSnoc(key: string -> string, index: seq<Entry>, names: set<string>, init: seq<SkillRef>,
                               pref: SkillRef, t: Tally)
    requires forall k :: k in t.names <==> k in names || (k in Keys(key, init) && HasKey(index, k))
    ensures forall k :: k in PreferredStep(key, index, t, pref).names
              <==> k in names || (k in Keys(key, init + [pref]) && HasKey(index, k))
  {
    KeysSnoc(key, init, pref);
  }

  /**
   * Completeness of the preferred pass: every preferred skill the candidate
   * has, whose key was not matched before, is represented by the line of the
   * first preferred skill with that key.
   */
  lemma PreferredComplete(key: string -> string, index: seq<Entry>, start: Tally, prefs: seq<SkillRef>, j: nat)
    returns (i: nat)
    requires j < |prefs| && HasKey(index, key(prefs[j].name)) && key(prefs[j].name) !in start.names
    ensures i <= j && key(prefs[i].name) == key(prefs[j].name) && key(prefs[i].name) !in Keys(key, prefs[..i])
    ensures AsMatch(prefs[i], 0.8) in PreferredPass(key, index, start, prefs).matched[|start.matched|..]
  {
    i := FirstWithKey(key, prefs, j);
    var chosen := ChosenPrefs(key, index, start.names, prefs);
    ChosenHas(key, index, start.names, prefs, i);
    var c :| 0 <= c < |chosen| && chosen[c] == prefs[i];
    var r := PreferredPass(key, index, start, prefs);
    assert r.matched[|start.matched| + c] == AsMatch(prefs[i], 0.8);
  }

  /** The first position whose skill has the key of position `j`. */
  lemma {:induction false} FirstWithKey(key: string -> string, prefs: seq<SkillRef>, j: nat) returns (i: nat)
    requires j < |prefs|
    ensures i <= j && key(prefs[i].name) == key(prefs[j].name) && key(prefs[i].name) !in Keys(key, prefs[..i])
    decreases j
  {
    var k := key(prefs[j].name);
    if k in Keys(key, prefs[..j]) {
      var ks := Keys(key, prefs[..j]);
      var e :| 0 <= e < |ks| && ks[e] == k;
      assert prefs[..j][e] == prefs[e];
      i := FirstWithKey(key, prefs, e);
    } else {
      i := j;
    }
  }

  /** A held, unmatched preferred skill that is the first with its key is chosen. */
  lemma {:induction false} ChosenHas(key: string -> string, index: seq<Entry>, names: set<string>, prefs: seq<SkillRef>, j: nat)
    requires j < |prefs| && HasKey(index, key(prefs[j].name)) && key(prefs[j].name) !in names
    requires key(prefs[j].name) !in Keys(key, prefs[..j])
    ensures prefs[j] in ChosenPrefs(key, index, names, prefs)
    decreases |prefs|
  {
    var init := prefs[..|prefs| - 1];
    var p := prefs[|prefs| - 1];
    var last := ChosenPrefs(key, index, names, prefs[..|prefs| - 1]);
    assert prefs == init + [p];
    ChosenSnoc(key, index, names, init, p);
    if j < |init| {
      assert init[j] == prefs[j] && init[..j] == prefs[..j];
      ChosenHas(key, index, names, init, j);
      assert prefs[j] in last;
    } else {
      assert prefs[..j] == init;
    }
  }

  /** One preferred step leaves missing alone and only extends matched and the keys. */
  lemma PreferredStepExtends(key: string -> string, index: seq<Entry>, t: Tally, pref: SkillRef)
    ensures var r := PreferredStep(key, index, t, pref);
      && r.missing == t.missing && t.names <= r.names
      && |t.matched| <= |r.matched| && r.matched[..|t.matched|] == t.matched
  {
  }

  /** One preferred step adds only a line of a present preferred skill whose key is not in `names`. */
  lemma PreferredStepLines(key: string -> string, index: seq<Entry>, names: set<string>, init: seq<SkillRef>,
                           pref: SkillRef, t: Tally, from: nat)
    requires names <= t.names && from <= |t.matched|
    requires forall i :: from <= i < |t.matched| ==> PreferredLine(key, index, names, init, t.matched[i])
    ensures var r := PreferredStep(key, index, t, pref);
      forall i :: from <= i < |r.matched| ==> PreferredLine(key, index, names, init + [pref], r.matched[i])
  {
    var prefs := init + [pref];
    var r := PreferredStep(key, index, t, pref);
    forall i | from <= i < |r.matched|
      ensures PreferredLine(key, index, names, prefs, r.matched[i])
    {
      if i < |t.matched| {
        assert r.matched[i] == t.matched[i];
        var j :| 0 <= j < |init| && t.matched[i] == AsMatch(init[j], 0.8)
          && HasKey(index, key(init[j].name)) && key(init[j].name) !in names;
        assert prefs[j] == init[j];
      } else {
        assert prefs[|init|] == pref;
      }
    }
  }

  /** One preferred step keeps the new lines' keys recorded, new to `names`, and pairwise distinct. */
  lemma PreferredStepKeys(key: string -> string, index: seq<Entry>, names: set<string>, pref: SkillRef, t: Tally, from: nat)
    requires names <= t.names && from <= |t.matched|
    requires forall i :: from <= i < |t.matched| ==> key(t.matched[i].name) in t.names && key(t.matched[i].name) !in names
    requires forall i, j :: from <= i < j < |t.matched| ==> key(t.matched[i].name) != key(t.matched[j].name)
    ensures var r := PreferredStep(key, index, t, pref);
      && (forall i :: from <= i < |r.matched| ==> key(r.matched[i].name) in r.names && key(r.matched[i].name) !in names)
      && (forall i, j :: from <= i < j < |r.matched| ==> key(r.matched[i].name) != key(r.matched[j].name))
  {
    var r := PreferredStep(key, index, t, pref);
    forall i | from <= i < |r.matched| && i < |t.matched|
      ensures r.matched[i] == t.matched[i]
    {
    }
  }

  /** The preferred pass adds to the matched keys exactly the keys of preferred skills the candidate has. */
  lemma {:induction false} PreferredNames(key: string -> string, index: seq<Entry>, start: Tally, prefs: seq<SkillRef>, k: string)
    ensures k in PreferredPass(key, index, start, prefs).names <==> k in start.names || (k in Keys(key, prefs) && HasKey(index, k))
  {
    if prefs != [] {
      var init := prefs[..|prefs| - 1];
      var pref := prefs[|prefs| - 1];
      assert prefs == init + [pref];
      KeysSnoc(key, init, pref);
      PreferredNames(key, index, start, init, k);
    }
  }

  // ---------------------------------------------------------------------------
  // Bonus skills and the score
  // ---------------------------------------------------------------------------

  /** The index entries whose key was never matched, in index order, with similarity 1. */
  function Bonus(index: seq<Entry>, names: set<string>): (r: seq<SkillMatch>)
    ensures |r| <= |index|
    ensures forall m :: m in r <==> exists i :: 0 <= i < |index| && index[i].key !in names && m == AsMatch(index[i].skill, 1.0)
    ensures r == Tag(SkillsOf(Filter(index, Unmatched(names))), 1.0)
  {
    if index == [] then []
    else
      var rest := Bonus(index[1..], names);
      var r := (if index[0].key !in names then [AsMatch(index[0].skill, 1.0)] else []) + rest;
      assert forall m :: m in r <==> BonusLine(index, names, m) by {
        BonusMembers(index, names, rest);
      }
      assert r == Tag(SkillsOf(Filter(index, Unmatched(names))), 1.0) by {
        BonusStep(index, names, rest);
      }
      r
  }

  /** `m` is the line of an index entry whose key is unmatched. */
  ghost predicate BonusLine(index: seq<Entry>, names: set<string>, m: SkillMatch) {
    exists i :: 0 <= i < |index| && index[i].key !in names && m == AsMatch(index[i].skill, 1.0)
  }

  /** The lines of the front entry and of the rest are the lines of the whole index. */
  lemma BonusMembers(index: seq<Entry>, names: set<string>, rest: seq<SkillMatch>)
    requires index != []
    requires forall m :: m in rest <==> BonusLine(index[1..], names, m)
    ensures var r := (if index[0].key !in names then [AsMatch(index[0].skill, 1.0)] else []) + rest;
      forall m :: m in r <==> BonusLine(index, names, m)
  {
    assert forall i :: 1 <= i < |index| ==> index[i] == index[1..][i - 1];
    forall m | BonusLine(index[1..], names, m) ensures BonusLine(index, names, m) {
      var i :| 0 <= i < |index[1..]| && index[1..][i].key !in names && m == AsMatch(index[1..][i].skill, 1.0);
      assert index[i + 1] == index[1..][i];
    }
  }

  /** One entry more in front of the index adds its line in front when its key is unmatched. */
  lemma BonusStep(index: seq<Entry>, names: set<string>, rest: seq<SkillMatch>)
    requires index != [] && rest == Tag(SkillsOf(Filter(index[1..], Unmatched(names))), 1.0)
    ensures (if index[0].key !in names then [AsMatch(index[0].skill, 1.0)] else []) + rest
         == Tag(SkillsOf(Filter(index, Unmatched(names))), 1.0)
  {
    var head := if index[0].key !in names then [index[0]] else [];
    var tail := Filter(index[1..], Unmatched(names));
    assert Filter(index, Unmatched(names)) == head + tail;
    SkillsOfAppend(head, tail);
    TagAppend(SkillsOf(head), SkillsOf(tail), 1.0);
  }

  /** Whether an index entry's key was never matched: the `!matchedNames.has` test. */
  function Unmatched(names: set<string>): Entry -> bool {
    (e: Entry) => e.key !in names
  }

  /** The skills of a list of index entries, in order. */
  function SkillsOf(entries: seq<Entry>): (r: seq<SkillRef>)
    ensures |r| == |entries|
    ensures forall i :: 0 <= i < |entries| ==> r[i] == entries[i].skill
  {
    if entries == [] then [] else [entries[0].skill] + SkillsOf(entries[1..])
  }

  lemma SkillsOfAppend(a: seq<Entry>, b: seq<Entry>)
    ensures SkillsOf(a + b) == SkillsOf(a) + SkillsOf(b)
  {
    assert forall i :: 0 <= i < |a| ==> (a + b)[i] == a[i];
    assert forall i :: 0 <= i < |b| ==> (a + b)[|a| + i] == b[i];
  }

  lemma TagAppend(a: seq<SkillRef>, b: seq<SkillRef>, similarity: real)
    ensures Tag(a + b, similarity) == Tag(a, similarity) + Tag(b, similarity)
  {
    assert forall i :: 0 <= i < |a| ==> (a + b)[i] == a[i];
    assert forall i :: 0 <= i < |b| ==> (a + b)[|a| + i] == b[i];
  }

  /** Whether a matched line's key is the key of some required skill: the `.some` test. */
  function NamesRequired(key: string -> string, required: seq<SkillRef>): SkillMatch -> bool {
    (m: SkillMatch) => key(m.name) in Keys(key, required)
  }

  /**
   * The `matchedRequired` count: the matched lines whose key some required
   * skill has are exactly the required matches, because a preferred skill
   * sharing a key with a required one was either matched already or is
   * absent from the candidate.
   */
  lemma MatchedCountIsRequired(key: string -> string, index: seq<Entry>, required: seq<SkillRef>, preferred: seq<SkillRef>)
    ensures var t := PreferredPass(key, index, RequiredPass(key, index, required), preferred);
      |Filter(t.matched, NamesRequired(key, required))| == |Filter(required, Present(key, index))|
  {
    var start := RequiredPass(key, index, required);
    var t := PreferredPass(key, index, start, preferred);
    RequiredLinesCount(key, index, required);
    PreferredLinesUncounted(key, index, required, preferred);
    CountSplit(t.matched, start.matched, NamesRequired(key, required));
  }

  /**
   * Filtering a sequence that starts with `front`, where the elements of
   * `front` all pass and the rest all fail, keeps as many as `front` has.
   */
  lemma CountSplit(s: seq<SkillMatch>, front: seq<SkillMatch>, f: SkillMatch -> bool)
    requires |front| <= |s| && s[..|front|] == front
    requires forall m :: m in front ==> f(m)
    requires forall m :: m in s[|front|..] ==> !f(m)
    ensures |Filter(s, f)| == |front|
  {
    var back := s[|front|..];
    assert s == front + back;
    FilterAppend(front, back, f);
    FilterAll(front, f);
    FilterNone(back, f);
  }

  /** Every line of the required pass passes the `.some` test. */
  lemma RequiredLinesCount(key: string -> string, index: seq<Entry>, required: seq<SkillRef>)
    ensures forall m :: m in RequiredPass(key, index, required).matched ==> NamesRequired(key, required)(m)
  {
    var front := RequiredPass(key, index, required).matched;
    var present := Filter(required, Present(key, index));
    forall m | m in front ensures NamesRequired(key, required)(m) {
      var i :| 0 <= i < |front| && front[i] == m;
      assert present[i] in present;
      assert present[i] in required;
      var j :| 0 <= j < |required| && required[j] == present[i];
      assert Keys(key, required)[j] == key(m.name);
    }
  }

  /** No line of the preferred pass passes the `.some` test. */
  lemma PreferredLinesUncounted(key: string -> string, index: seq<Entry>, required: seq<SkillRef>, preferred: seq<SkillRef>)
    ensures var start := RequiredPass(key, index, required);
      var t := PreferredPass(key, index, start, preferred);
      forall m :: m in t.matched[|start.matched|..] ==> !NamesRequired(key, required)(m)
  {
    var start := RequiredPass(key, index, required);
    RequiredKeysRecorded(key, index, required);
    UncountedLines(key, index, required, start.names, preferred, PreferredPass(key, index, start, preferred).matched, |start.matched|);
  }

  /** The required pass records the key of every required skill the candidate has. */
  lemma RequiredKeysRecorded(key: string -> string, index: seq<Entry>, required: seq<SkillRef>)
    ensures forall k :: k in Keys(key, required) && HasKey(index, k) ==> k in RequiredPass(key, index, required).names
  {
    forall k | k in Keys(key, required) && HasKey(index, k)
      ensures k in RequiredPass(key, index, required).names
    {
      RequiredNames(key, index, required, k);
    }
  }

  /**
   * Lines of preferred skills the candidate has, whose keys were not among
   * the matched required keys, fail the `.some` test.
   */
  lemma UncountedLines(key: string -> string, index: seq<Entry>, required: seq<SkillRef>,
                       names: set<string>, prefs: seq<SkillRef>, matched: seq<SkillMatch>, from: nat)
    requires from <= |matched|
    requires forall k :: k in Keys(key, required) && HasKey(index, k) ==> k in names
    requires forall i :: from <= i < |matched| ==> PreferredLine(key, index, names, prefs, matched[i])
    ensures forall m :: m in matched[from..] ==> !NamesRequired(key, required)(m)
  {
    forall m | m in matched[from..]
      ensures !NamesRequired(key, required)(m)
    {
      var i :| from <= i < |matched| && matched[i] == m;
      var j :| 0 <= j < |prefs| && m == AsMatch(prefs[j], 0.8)
        && HasKey(index, key(prefs[j].name)) && key(prefs[j].name) !in names;
    }
  }

  /**
   * The skill score: the share of required skills matched, or partial credit
   * 0.5 when nothing is required and something matched.
   */
  function SkillScore(matchedCount: nat, totalRequired: nat, anyMatched: bool): (r: real)
    requires matchedCount <= totalRequired
    ensures 0.0 <= r <= 1.0
    ensures totalRequired > 0 ==> r == matchedCount as real / totalRequired as real
    ensures totalRequired == 0 ==> (r == 0.5 <==> anyMatched) && (r == 0.0 <==> !anyMatched)
  {
    var raw := if totalRequired > 0 then matchedCount as real / totalRequired as real
               else if anyMatched then 0.5 else 0.0;
    MinReal(raw, 1.0)
  }

  // ---------------------------------------------------------------------------
  // The analysis
  // ---------------------------------------------------------------------------

  datatype Analysis = Analysis(
    score: real,
    matched: seq<SkillMatch>,
    missing: seq<SkillMatch>,
    bonus: seq<SkillMatch>,
    matchedCount: nat,
    totalRequired: nat)

  /** The tally after both passes, under any key function. */
  function Passes(key: string -> string, resume: seq<SkillRef>, required: seq<SkillRef>, preferred: seq<SkillRef>): Tally {
    var index := CandidateIndex(key, resume);
    PreferredPass(key, index, RequiredPass(key, index, required), preferred)
  }

  /** The analysis under any key function. */
  function AnalyseWith(key: string -> string, resume: seq<SkillRef>, required: seq<SkillRef>, preferred: seq<SkillRef>): (r: Analysis)
    ensures var index := CandidateIndex(key, resume);
      && r.totalRequired == |required|
      && r.matchedCount == |Filter(required, Present(key, index))|
      && r.matchedCount <= |r.matched|
      && r.missing == Tag(Filter(required, Absent(key, index)), 0.0)
      && r.matched[..r.matchedCount] == Tag(Filter(required, Present(key, index)), 1.0)
      && r.matchedCount + |r.missing| == |required|
      && 0.0 <= r.score <= 1.0
      && (|required| > 0 ==> r.score == r.matchedCount as real / |required| as real)
      && (|required| == 0 ==> (r.score == 0.5 <==> r.matched != []) && (r.score == 0.0 <==> r.matched == []))
  {
    var index := CandidateIndex(key, resume);
    var t := Passes(key, resume, required, preferred);
    var matchedCount := |Filter(t.matched, NamesRequired(key, required))|;
    MatchedCountIsRequired(key, index, required, preferred);
    RequiredPartition(key, index, required);
    Analysis(SkillScore(matchedCount, |required|, t.matched != []),
             t.matched, t.missing, Bonus(index, t.names), matchedCount, |required|)
  }

  /**
   * Partial credit: with nothing required, the score is 0.5 exactly when the
   * candidate has some preferred skill by key, and 0 otherwise.
   */
  lemma PreferredCredit(key: string -> string, resume: seq<SkillRef>, preferred: seq<SkillRef>)
    ensures var held := exists j :: 0 <= j < |preferred| && key(preferred[j].name) in Keys(key, resume);
      AnalyseWith(key, resume, [], preferred).score == if held then 0.5 else 0.0
  {
    var index := CandidateIndex(key, resume);
    var start := Tally([], [], {});
    assert RequiredPass(key, index, []) == start;
    var t := PreferredPass(key, index, start, preferred);
    var a := AnalyseWith(key, resume, [], preferred);
    assert a.matched == t.matched;
    var held := exists j :: 0 <= j < |preferred| && key(preferred[j].name) in Keys(key, resume);
    assert held <==> t.matched != [] by {
      if held {
        var j :| 0 <= j < |preferred| && key(preferred[j].name) in Keys(key, resume);
        var i := PreferredComplete(key, index, start, preferred, j);
      }
      if t.matched != [] {
        assert t.matched[0] in t.matched[|start.matched|..];
        LineHeld(key, resume, preferred, t.matched[0]);
      }
    }
  }

  /** A preferred line names a preferred skill the candidate has. */
  lemma LineHeld(key: string -> string, resume: seq<SkillRef>, prefs: seq<SkillRef>, m: SkillMatch)
    requires PreferredLine(key, CandidateIndex(key, resume), {}, prefs, m)
    ensures exists j :: 0 <= j < |prefs| && key(prefs[j].name) in Keys(key, resume)
  {
    var j :| 0 <= j < |prefs| && m == AsMatch(prefs[j], 0.8)
      && HasKey(CandidateIndex(key, resume), key(prefs[j].name)) && key(prefs[j].name) !in {};
  }

  /**
   * Bonus lines and matched lines never share a key, and every candidate
   * skill kept in the index is either matched by key or listed as bonus.
   */
  lemma BonusDisjoint(key: string -> string, resume: seq<SkillRef>, required: seq<SkillRef>, preferred: seq<SkillRef>,
                      b: SkillMatch, m: SkillMatch)
    requires b in AnalyseWith(key, resume, required, preferred).bonus
    requires m in AnalyseWith(key, resume, required, preferred).matched
    ensures key(b.name) != key(m.name)
  {
    var index := CandidateIndex(key, resume);
    var t := PreferredPass(key, index, RequiredPass(key, index, required), preferred);
    MatchedKeysRecorded(key, index, required, preferred);
    BonusKeyUnmatched(key, index, t.names, t.matched, b, m);
  }

  /** A bonus line's key is not recorded, so no line whose key is recorded shares it. */
  lemma BonusKeyUnmatched(key: string -> string, index: seq<Entry>, names: set<string>, matched: seq<SkillMatch>,
                          b: SkillMatch, m: SkillMatch)
    requires forall i :: 0 <= i < |index| ==> index[i].key == key(index[i].skill.name)
    requires b in Bonus(index, names)
    requires forall m :: m in matched ==> key(m.name) in names
    requires m in matched
    ensures key(b.name) != key(m.name)
  {
    var i :| 0 <= i < |index| && index[i].key !in names && b == AsMatch(index[i].skill, 1.0);
  }

  /** Both passes record the key of every line they match. */
  lemma MatchedKeysRecorded(key: string -> string, index: seq<Entry>, required: seq<SkillRef>, preferred: seq<SkillRef>)
    ensures var t := PreferredPass(key, index, RequiredPass(key, index, required), preferred);
      forall m :: m in t.matched ==> key(m.name) in t.names
  {
    var start := RequiredPass(key, index, required);
    var t := PreferredPass(key, index, start, preferred);
    RequiredLinesRecorded(key, index, required);
    KeysRecordedAfter(key, start, t);
  }

  /** Keys recorded for the lines of `start` and for the lines `t` adds cover all lines of `t`. */
  lemma KeysRecordedAfter(key: string -> string, start: Tally, t: Tally)
    requires |start.matched| <= |t.matched| && t.matched[..|start.matched|] == start.matched
    requires start.names <= t.names
    requires forall m :: m in start.matched ==> key(m.name) in start.names
    requires forall i :: |start.matched| <= i < |t.matched| ==> key(t.matched[i].name) in t.names
    ensures forall m :: m in t.matched ==> key(m.name) in t.names
  {
    forall m | m in t.matched
      ensures key(m.name) in t.names
    {
      var j :| 0 <= j < |t.matched| && t.matched[j] == m;
      if j < |start.matched| {
        assert start.matched[j] == m;
      }
    }
  }

  /** The required pass records the key of every line it matches. */
  lemma RequiredLinesRecorded(key: string -> string, index: seq<Entry>, required: seq<SkillRef>)
    ensures var start := RequiredPass(key, index, required);
      forall m :: m in start.matched ==> key(m.name) in start.names
  {
    var start := RequiredPass(key, index, required);
    var present := Filter(required, Present(key, index));
    RequiredLinesCount(key, index, required);
    forall m | m in start.matched
      ensures key(m.name) in start.names
    {
      var j :| 0 <= j < |start.matched| && start.matched[j] == m;
      assert m == AsMatch(present[j], 1.0);
      assert present[j] in present;
      RequiredNames(key, index, required, key(m.name));
    }
  }

  /** Every entry of the candidate index is matched by key or has its bonus line. */
  lemma BonusCovers(key: string -> string, resume: seq<SkillRef>, required: seq<SkillRef>, preferred: seq<SkillRef>, i: nat)
    requires i < |CandidateIndex(key, resume)|
    ensures var e := CandidateIndex(key, resume)[i];
      e.key in Passes(key, resume, required, preferred).names
      || AsMatch(e.skill, 1.0) in AnalyseWith(key, resume, required, preferred).bonus
  {
  }

  /** `calculateSkillOverlap(resumeSkills, requiredSkills, preferredSkills)`. */
  function CalculateSkillOverlap(resume: seq<SkillRef>, required: seq<SkillRef>, preferred: seq<SkillRef>): Analysis {
    AnalyseWith(CompareKey, resume, required, preferred)
  }
}
