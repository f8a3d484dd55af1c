/**
 * The per-category view of a skill overlap: the matched, missing and bonus
 * lines grouped by category in the order the categories are first met, and
 * for each category the counts and the percentage of its required lines
 * that matched, largest categories first.
 */
module CategoryCoverage {
  import opened Common
  import opened Sorting
  import Overlap

  type SkillMatch = Overlap.SkillMatch

  /** Which of the three lists of an overlap a line came from. */
  datatype Kind = MatchedKind | MissingKind | BonusKind

  /** The lines of one category, split by the list they came from. */
  datatype Bucket = Bucket(category: string, matched: seq<SkillMatch>, missing: seq<SkillMatch>, bonus: seq<SkillMatch>)

  /** `skill.category || 'other'`. */
  function CategoryOf(s: SkillMatch): string {
    Overlap.CategoryOr(s.category)
  }

  function InCategory(c: string): SkillMatch -> bool {
    (s: SkillMatch) => CategoryOf(s) == c
  }

  function Categories(groups: seq<Bucket>): (r: seq<string>)
    ensures |r| == |groups|
    ensures forall i :: 0 <= i < |r| ==> r[i] == groups[i].category
  {
    if groups == [] then [] else [groups[0].category] + Categories(groups[1..])
  }

  ghost predicate DistinctCategories(groups: seq<Bucket>) {
    forall i, j :: 0 <= i < j < |groups| ==> groups[i].category != groups[j].category
  }

  /** The list of `kind` in a bucket. */
  function Lines(b: Bucket, kind: Kind): seq<SkillMatch> {
    match kind
    case MatchedKind => b.matched
    case MissingKind => b.missing
    case BonusKind => b.bonus
  }

  /** `categories[cat][type].push(skill)`. */
  function Push(b: Bucket, s: SkillMatch, kind: Kind): (r: Bucket)
    ensures r.category == b.category
    ensures Lines(r, kind) == Lines(b, kind) + [s]
  {
    match kind
    case MatchedKind => b.(matched := b.matched + [s])
    case MissingKind => b.(missing := b.missing + [s])
    case BonusKind => b.(bonus := b.bonus + [s])
  }

  /** A push touches no other list of the bucket. */
  lemma PushOther(b: Bucket, s: SkillMatch, kind: Kind, k: Kind)
    requires k != kind
    ensures Lines(Push(b, s, kind), k) == Lines(b, k)
  {
  }

  /** The position of the bucket of category `c`, or the length when there is none. */
  function Find(groups: seq<Bucket>, c: string): (r: nat)
    ensures r <= |groups|
    ensures r < |groups| ==> groups[r].category == c
    ensures r == |groups| ==> c !in Categories(groups)
  {
    if groups == [] then 0
    else if groups[0].category == c then 0
    else 1 + Find(groups[1..], c)
  }

  /** `addToCategory(skill, type)`: a new category opens a bucket at the end. */
  function Add(groups: seq<Bucket>, s: SkillMatch, kind: Kind): (r: seq<Bucket>)
    requires DistinctCategories(groups)
    ensures DistinctCategories(r)
    ensures CategoryOf(s) in Categories(groups) ==> Categories(r) == Categories(groups)
    ensures CategoryOf(s) !in Categories(groups) ==> Categories(r) == Categories(groups) + [CategoryOf(s)]
  {
    var c := CategoryOf(s);
    var i := Find(groups, c);
    if i == |groups| then
      AddOpens(groups, Push(Bucket(c, [], [], []), s, kind));
      groups + [Push(Bucket(c, [], [], []), s, kind)]
    else
      AddFills(groups, i, Push(groups[i], s, kind));
      groups[i := Push(groups[i], s, kind)]
  }

  /** Opening a bucket of a new category keeps the categories distinct and appends it. */
  lemma AddOpens(groups: seq<Bucket>, b: Bucket)
    requires DistinctCategories(groups) && b.category !in Categories(groups)
    ensures DistinctCategories(groups + [b]) && Categories(groups + [b]) == Categories(groups) + [b.category]
  {
    assert forall j :: 0 <= j < |groups| ==> Categories(groups)[j] != b.category;
  }

  /** Replacing a bucket by one of the same category changes no category. */
  lemma AddFills(groups: seq<Bucket>, i: nat, b: Bucket)
    requires DistinctCategories(groups) && i < |groups| && b.category == groups[i].category
    ensures DistinctCategories(groups[i := b]) && Categories(groups[i := b]) == Categories(groups)
  {
    var r := groups[i := b];
    assert forall j :: 0 <= j < |r| ==> r[j].category == groups[j].category;
  }

  /** Adds the lines `xs` of one kind, in order. */
  function AddAll(groups: seq<Bucket>, xs: seq<SkillMatch>, kind: Kind): (r: seq<Bucket>)
    requires DistinctCategories(groups)
    ensures DistinctCategories(r)
    ensures |groups| <= |r| && Categories(r)[..|groups|] == Categories(groups)
  {
    if xs == [] then groups
    else
      var prev := AddAll(groups, xs[..|xs| - 1], kind);
      var r := Add(prev, xs[|xs| - 1], kind);
      assert Categories(r)[..|prev|] == Categories(prev);
      r
  }

  /** The category of each line, in order. */
  function CategoriesOf(xs: seq<SkillMatch>): (r: seq<string>)
    ensures |r| == |xs|
    ensures forall i :: 0 <= i < |xs| ==> r[i] == CategoryOf(xs[i])
  {
    seq(|xs|, i requires 0 <= i < |xs| => CategoryOf(xs[i]))
  }

  /** Adding lines opens buckets for their new categories in the order they are first met. */
  lemma {:induction false} AddAllCategories(groups: seq<Bucket>, xs: seq<SkillMatch>, kind: Kind)
    requires DistinctCategories(groups)
    ensures Categories(AddAll(groups, xs, kind)) == AppendUnseen(Categories(groups), CategoriesOf(xs))
  {
    if xs != [] {
      var init := xs[..|xs| - 1];
      AddAllCategories(groups, init, kind);
      assert CategoriesOf(xs)[..|xs| - 1] == CategoriesOf(init);
    }
  }

  /** Every bucket's list of `kind` holds exactly the lines of `xs` of its category, in order. */
  ghost predicate Sorted(groups: seq<Bucket>, kind: Kind, xs: seq<SkillMatch>) {
    forall i :: 0 <= i < |groups| ==> Lines(groups[i], kind) == Filter(xs, InCategory(groups[i].category))
  }

  /** Every line of `xs` has a bucket. */
  ghost predicate Covered(groups: seq<Bucket>, xs: seq<SkillMatch>) {
    forall s :: s in xs ==> CategoryOf(s) in Categories(groups)
  }

  /** No bucket is empty: a category is present only when some line carries it. */
  ghost predicate NonEmpty(groups: seq<Bucket>) {
    forall i :: 0 <= i < |groups| ==> groups[i].matched + groups[i].missing + groups[i].bonus != []
  }

  /**
   * `groups` is the grouping of the three lists: one bucket per category,
   * each holding exactly the lines of its category from each list in their
   * order, no bucket empty, and every line's category present.
   */
  ghost predicate Grouped(groups: seq<Bucket>, matched: seq<SkillMatch>, missing: seq<SkillMatch>, bonus: seq<SkillMatch>) {
    && DistinctCategories(groups)
    && Sorted(groups, MatchedKind, matched) && Sorted(groups, MissingKind, missing) && Sorted(groups, BonusKind, bonus)
    && Covered(groups, matched) && Covered(groups, missing) && Covered(groups, bonus)
    && NonEmpty(groups)
  }

  /** After an add, the bucket at `j` holds the lines of its category for the added kind... */
  lemma AddLinesSame(groups: seq<Bucket>, s: SkillMatch, kind: Kind, xs: seq<SkillMatch>, j: nat)
    requires DistinctCategories(groups) && Sorted(groups, kind, xs) && Covered(groups, xs)
    requires j < |Add(groups, s, kind)|
    ensures Lines(Add(groups, s, kind)[j], kind) == Filter(xs + [s], InCategory(Add(groups, s, kind)[j].category))
  {
    var b := Add(groups, s, kind)[j];
    var p := InCategory(b.category);
    FilterSnoc(xs, s, p);
    if j == |groups| {
      FilterNone(xs, p);
    }
  }

  /** ...and, for every other kind, the lines it held before. */
  lemma AddLinesOther(groups: seq<Bucket>, s: SkillMatch, kind: Kind, k: Kind, ys: seq<SkillMatch>, j: nat)
    requires k != kind
    requires DistinctCategories(groups) && Sorted(groups, k, ys) && Covered(groups, ys)
    requires j < |Add(groups, s, kind)|
    ensures Lines(Add(groups, s, kind)[j], k) == Filter(ys, InCategory(Add(groups, s, kind)[j].category))
  {
    var b := Add(groups, s, kind)[j];
    if j < |groups| {
      if b != groups[j] {
        PushOther(groups[j], s, kind, k);
      }
    } else {
      PushOther(Bucket(CategoryOf(s), [], [], []), s, kind, k);
      FilterNone(ys, InCategory(b.category));
    }
  }

  /** Adding the last line of `xs` to a grouping of the others groups all of `xs`. */
  lemma AddSorted(groups: seq<Bucket>, kind: Kind, xs: seq<SkillMatch>)
    requires xs != [] && DistinctCategories(groups)
    requires Sorted(groups, kind, xs[..|xs| - 1]) && Covered(groups, xs[..|xs| - 1])
    ensures Sorted(Add(groups, xs[|xs| - 1], kind), kind, xs) && Covered(Add(groups, xs[|xs| - 1], kind), xs)
  {
    var init, s := xs[..|xs| - 1], xs[|xs| - 1];
    assert xs == init + [s];
    var r := Add(groups, s, kind);
    forall j | 0 <= j < |r|
      ensures Lines(r[j], kind) == Filter(xs, InCategory(r[j].category))
    {
      AddLinesSame(groups, s, kind, init, j);
    }
    forall t | t in xs
      ensures CategoryOf(t) in Categories(r)
    {
      if t != s {
        assert t in init;
      }
    }
  }

  lemma AddSortedOther(groups: seq<Bucket>, s: SkillMatch, kind: Kind, k: Kind, ys: seq<SkillMatch>)
    requires k != kind
    requires DistinctCategories(groups) && Sorted(groups, k, ys) && Covered(groups, ys)
    ensures Sorted(Add(groups, s, kind), k, ys) && Covered(Add(groups, s, kind), ys)
  {
    var r := Add(groups, s, kind);
    forall j | 0 <= j < |r|
      ensures Lines(r[j], k) == Filter(ys, InCategory(r[j].category))
    {
      AddLinesOther(groups, s, kind, k, ys, j);
    }
    forall t | t in ys
      ensures CategoryOf(t) in Categories(r)
    {
      assert CategoryOf(t) in Categories(groups);
    }
  }

  lemma AddNonEmpty(groups: seq<Bucket>, s: SkillMatch, kind: Kind)
    requires DistinctCategories(groups) && NonEmpty(groups)
    ensures NonEmpty(Add(groups, s, kind))
  {
    var r := Add(groups, s, kind);
    forall j | 0 <= j < |r|
      ensures r[j].matched + r[j].missing + r[j].bonus != []
    {
      if j == |groups| || r[j] != groups[j] {
        var b := if j == |groups| then Bucket(CategoryOf(s), [], [], []) else groups[j];
        assert r[j] == Push(b, s, kind);
        assert s in Lines(r[j], kind);
      }
    }
  }

  /** Adding the lines `xs` of `kind` to buckets holding none of that kind groups them... */
  lemma {:induction false} AddAllSame(groups: seq<Bucket>, kind: Kind, xs: seq<SkillMatch>)
    requires DistinctCategories(groups) && Sorted(groups, kind, [])
    ensures Sorted(AddAll(groups, xs, kind), kind, xs) && Covered(AddAll(groups, xs, kind), xs)
  {
    if xs != [] {
      var init := xs[..|xs| - 1];
      AddAllSame(groups, kind, init);
      AddSorted(AddAll(groups, init, kind), kind, xs);
    }
  }

  /** ...keeps the grouping of every other kind... */
  lemma {:induction false} AddAllOther(groups: seq<Bucket>, kind: Kind, xs: seq<SkillMatch>, k: Kind, ys: seq<SkillMatch>)
    requires k != kind
    requires DistinctCategories(groups) && Sorted(groups, k, ys) && Covered(groups, ys)
    ensures Sorted(AddAll(groups, xs, kind), k, ys) && Covered(AddAll(groups, xs, kind), ys)
  {
    if xs != [] {
      var init := xs[..|xs| - 1];
      AddAllOther(groups, kind, init, k, ys);
      AddSortedOther(AddAll(groups, init, kind), xs[|xs| - 1], kind, k, ys);
    }
  }

  /** ...and leaves no bucket empty. */
  lemma {:induction false} AddAllNonEmpty(groups: seq<Bucket>, kind: Kind, xs: seq<SkillMatch>)
    requires DistinctCategories(groups) && NonEmpty(groups)
    ensures NonEmpty(AddAll(groups, xs, kind))
  {
    if xs != [] {
      var init := xs[..|xs| - 1];
      AddAllNonEmpty(groups, kind, init);
      AddNonEmpty(AddAll(groups, init, kind), xs[|xs| - 1], kind);
    }
  }

  /** `groupSkillsByCategory`: matched lines first, then missing, then bonus. */
  function GroupSkillsByCategory(matched: seq<SkillMatch>, missing: seq<SkillMatch>, bonus: seq<SkillMatch>): (r: seq<Bucket>)
    ensures Grouped(r, matched, missing, bonus)
    ensures Categories(r) == FirstSeen(CategoriesOf(matched + missing + bonus))
  {
    var g0: seq<Bucket> := [];
    var g1 := AddAll(g0, matched, MatchedKind);
    AddAllSame(g0, MatchedKind, matched);
    AddAllOther(g0, MatchedKind, matched, MissingKind, []);
    AddAllOther(g0, MatchedKind, matched, BonusKind, []);
    AddAllNonEmpty(g0, MatchedKind, matched);
    var g2 := AddAll(g1, missing, MissingKind);
    AddAllSame(g1, MissingKind, missing);
    AddAllOther(g1, MissingKind, missing, MatchedKind, matched);
    AddAllOther(g1, MissingKind, missing, BonusKind, []);
    AddAllNonEmpty(g1, MissingKind, missing);
    var g3 := AddAll(g2, bonus, BonusKind);
    AddAllSame(g2, BonusKind, bonus);
    AddAllOther(g2, BonusKind, bonus, MatchedKind, matched);
    AddAllOther(g2, BonusKind, bonus, MissingKind, missing);
    AddAllNonEmpty(g2, BonusKind, bonus);
    GroupCategories(matched, missing, bonus);
    g3
  }

  /** The buckets come in the order their categories first occur in the three lists. */
  lemma GroupCategories(matched: seq<SkillMatch>, missing: seq<SkillMatch>, bonus: seq<SkillMatch>)
    ensures var g1 := AddAll([], matched, MatchedKind);
      var g3 := AddAll(AddAll(g1, missing, MissingKind), bonus, BonusKind);
      Categories(g3) == FirstSeen(CategoriesOf(matched + missing + bonus))
  {
    var g1 := AddAll([], matched, MatchedKind);
    var g2 := AddAll(g1, missing, MissingKind);
    AddAllCategories([], matched, MatchedKind);
    AddAllCategories(g1, missing, MissingKind);
    AddAllCategories(g2, bonus, BonusKind);
    CategoriesOfConcat(matched, missing, bonus);
    FirstSeenOfThree(CategoriesOf(matched), CategoriesOf(missing), CategoriesOf(bonus));
  }

  lemma CategoriesOfConcat(a: seq<SkillMatch>, b: seq<SkillMatch>, c: seq<SkillMatch>)
    ensures CategoriesOf(a + b + c) == CategoriesOf(a) + CategoriesOf(b) + CategoriesOf(c)
  {
  }

  lemma FirstSeenOfThree(a: seq<string>, b: seq<string>, c: seq<string>)
    ensures AppendUnseen(AppendUnseen(AppendUnseen([], a), b), c) == FirstSeen(a + b + c)
  {
    AppendUnseenConcat([], a, b);
    AppendUnseenConcat([], a + b, c);
  }

  /**
   * Buckets appear in the order their categories are first met in the
   * matched, then missing, then bonus lines.
   */
  lemma GroupOrder(matched: seq<SkillMatch>, missing: seq<SkillMatch>, bonus: seq<SkillMatch>)
    ensures var g, cs := GroupSkillsByCategory(matched, missing, bonus), CategoriesOf(matched + missing + bonus);
      forall i, j :: 0 <= i < j < |g| ==>
        g[i].category in cs && g[j].category in cs && FirstIndex(cs, g[i].category) < FirstIndex(cs, g[j].category)
  {
    var g, cs := GroupSkillsByCategory(matched, missing, bonus), CategoriesOf(matched + missing + bonus);
    FirstSeenOrder(cs);
    assert forall i :: 0 <= i < |g| ==> g[i].category == FirstSeen(cs)[i];
  }

  // ---------------------------------------------------------------------------
  // Bucket sizes
  // ---------------------------------------------------------------------------

  /** The number of lines of `kind` over all buckets. */
  function TotalLines(groups: seq<Bucket>, kind: Kind): nat {
    if groups == [] then 0 else |Lines(groups[0], kind)| + TotalLines(groups[1..], kind)
  }

  lemma {:induction false} TotalAppend(groups: seq<Bucket>, b: Bucket, kind: Kind)
    ensures TotalLines(groups + [b], kind) == TotalLines(groups, kind) + |Lines(b, kind)|
  {
    if groups != [] {
      assert (groups + [b])[1..] == groups[1..] + [b];
      TotalAppend(groups[1..], b, kind);
    }
  }

  lemma {:induction false} TotalUpdate(groups: seq<Bucket>, i: nat, b: Bucket, kind: Kind)
    requires i < |groups|
    ensures TotalLines(groups[i := b], kind) + |Lines(groups[i], kind)| == TotalLines(groups, kind) + |Lines(b, kind)|
  {
    if i > 0 {
      assert groups[i := b][1..] == groups[1..][i - 1 := b];
      TotalUpdate(groups[1..], i - 1, b, kind);
    }
  }

  lemma TotalAdd(groups: seq<Bucket>, s: SkillMatch, kind: Kind, k: Kind)
    requires DistinctCategories(groups)
    ensures TotalLines(Add(groups, s, kind), k) == TotalLines(groups, k) + (if k == kind then 1 else 0)
  {
    var c := CategoryOf(s);
    var i := Find(groups, c);
    var b := if i == |groups| then Bucket(c, [], [], []) else groups[i];
    if k != kind {
      PushOther(b, s, kind, k);
    }
    if i == |groups| {
      TotalAppend(groups, Push(b, s, kind), k);
    } else {
      TotalUpdate(groups, i, Push(b, s, kind), k);
    }
  }

  lemma {:induction false} TotalAddAll(groups: seq<Bucket>, xs: seq<SkillMatch>, kind: Kind, k: Kind)
    requires DistinctCategories(groups)
    ensures TotalLines(AddAll(groups, xs, kind), k) == TotalLines(groups, k) + (if k == kind then |xs| else 0)
  {
    if xs != [] {
      var init := xs[..|xs| - 1];
      TotalAddAll(groups, init, kind, k);
      TotalAdd(AddAll(groups, init, kind), xs[|xs| - 1], kind, k);
    }
  }

  /** Summed over the categories, the bucket sizes are the lengths of the three lists. */
  lemma GroupTotals(matched: seq<SkillMatch>, missing: seq<SkillMatch>, bonus: seq<SkillMatch>)
    ensures var g := GroupSkillsByCategory(matched, missing, bonus);
      && TotalLines(g, MatchedKind) == |matched|
      && TotalLines(g, MissingKind) == |missing|
      && TotalLines(g, BonusKind) == |bonus|
  {
    var g0: seq<Bucket> := [];
    var g1 := AddAll(g0, matched, MatchedKind);
    var g2 := AddAll(g1, missing, MissingKind);
    forall k | true
      ensures TotalLines(AddAll(g2, bonus, BonusKind), k)
           == (match k case MatchedKind => |matched| case MissingKind => |missing| case BonusKind => |bonus|)
    {
      TotalAddAll(g0, matched, MatchedKind, k);
      TotalAddAll(g1, missing, MissingKind, k);
      TotalAddAll(g2, bonus, BonusKind, k);
    }
    assert GroupSkillsByCategory(matched, missing, bonus) == AddAll(g2, bonus, BonusKind);
  }

  // ---------------------------------------------------------------------------
  // Coverage
  // ---------------------------------------------------------------------------

  /**
   * The percentage of required lines matched, `Math.round(matched / total *
   * 100)`, or 100 for a category with no required line.
   */
  function Coverage(matched: nat, missing: nat): (r: int)
    ensures 0 <= r <= 100
    ensures matched + missing == 0 ==> r == 100
    ensures matched + missing > 0 ==> (r == 100 <==> 200 * missing <= matched + missing)
    ensures matched + missing > 0 ==> (r == 0 <==> 200 * matched < matched + missing)
    ensures matched + missing > 0 ==> RoundedPercent(r, matched, matched + missing)
  {
    var total := matched + missing;
    if total == 0 then 100
    else
      PercentFacts(matched, total);
      PercentRound(matched, total);
      Round(matched as real / total as real * 100.0)
  }

  /** Where the percentage of `part` in `total` falls, in whole numbers. */
  lemma PercentFacts(part: nat, total: nat)
    requires 0 < total && part <= total
    ensures var x := part as real / total as real * 100.0;
      && 0.0 <= x <= 100.0
      && (x >= 99.5 <==> 200 * (total - part) <= total)
      && (x < 0.5 <==> 200 * part < total)
      && (Round(x) == 100 <==> x >= 99.5)
      && (Round(x) == 0 <==> x < 0.5)
  {
    var t, p := total as real, part as real;
    var x := p / t * 100.0;
    assert 0.0 <= x by { PercentAtLeast(p, t, 0.0); }
    assert x <= 100.0 by { PercentAtLeast(p, t, 100.0); }
    assert x >= 99.5 <==> 200 * (total - part) <= total by {
      PercentAtLeast(p, t, 99.5);
    }
    assert x >= 0.5 <==> 200 * part >= total by {
      PercentAtLeast(p, t, 0.5);
    }
    RoundBounds(x, 0, 100);
  }

  /** A share `p` of `t` reaches `c` percent exactly when `100 * p` reaches `c * t`. */
  lemma PercentAtLeast(p: real, t: real, c: real)
    requires t > 0.0
    ensures p / t * 100.0 >= c <==> 100.0 * p >= c * t
  {
    var x := p / t * 100.0;
    assert x * t == 100.0 * p;
    ScaleCompare(x, c, t);
  }

  /** Multiplying both sides by a positive number keeps a comparison. */
  lemma ScaleCompare(x: real, c: real, t: real)
    requires t > 0.0
    ensures x >= c <==> x * t >= c * t
  {
    if x >= c {
      assert (x - c) * t >= 0.0;
    } else {
      assert (c - x) * t > 0.0;
    }
  }

  /** One line of `getCategoryCoverage`. */
  datatype CategoryLine = CategoryLine(category: string, matched: nat, missing: nat, bonus: nat, total: nat, coverage: int)

  function CoverageOf(b: Bucket): (r: CategoryLine)
    ensures r.category == b.category
    ensures r.matched == |b.matched| && r.missing == |b.missing| && r.bonus == |b.bonus|
    ensures r.total == r.matched + r.missing
    ensures r.coverage == Coverage(r.matched, r.missing)
  {
    CategoryLine(b.category, |b.matched|, |b.missing|, |b.bonus|, |b.matched| + |b.missing|,
                 Coverage(|b.matched|, |b.missing|))
  }

  function CoverageLines(groups: seq<Bucket>): (r: seq<CategoryLine>)
    ensures |r| == |groups|
    ensures forall i :: 0 <= i < |r| ==> r[i] == CoverageOf(groups[i])
  {
    if groups == [] then [] else [CoverageOf(groups[0])] + CoverageLines(groups[1..])
  }

  function TotalOf(line: CategoryLine): real {
    line.total as real
  }

  /** `getCategoryCoverage`: one line per category, largest total first, ties in first-met order. */
  function GetCategoryCoverage(matched: seq<SkillMatch>, missing: seq<SkillMatch>, bonus: seq<SkillMatch>): (r: seq<CategoryLine>)
    ensures SortedDesc(r, TotalOf)
    ensures multiset(r) == multiset(CoverageLines(GroupSkillsByCategory(matched, missing, bonus)))
  {
    SortDesc(CoverageLines(GroupSkillsByCategory(matched, missing, bonus)), TotalOf)
  }

  /**
   * Each line of the coverage counts exactly the lines of its category in
   * each list, and carries a category some line has.
   */
  lemma CoverageLineCounts(matched: seq<SkillMatch>, missing: seq<SkillMatch>, bonus: seq<SkillMatch>, line: CategoryLine)
    requires line in GetCategoryCoverage(matched, missing, bonus)
    ensures line.matched == |Filter(matched, InCategory(line.category))|
    ensures line.missing == |Filter(missing, InCategory(line.category))|
    ensures line.bonus == |Filter(bonus, InCategory(line.category))|
    ensures line.total > 0 || line.bonus > 0
  {
    var g := GroupSkillsByCategory(matched, missing, bonus);
    var i := LineOfBucket(g, GetCategoryCoverage(matched, missing, bonus), line);
    BucketCounts(g, matched, missing, bonus, i);
  }

  /** A line of a permutation of the coverage lines comes from some bucket. */
  lemma LineOfBucket(g: seq<Bucket>, r: seq<CategoryLine>, line: CategoryLine) returns (i: nat)
    requires multiset(r) == multiset(CoverageLines(g)) && line in r
    ensures i < |g| && line == CoverageOf(g[i])
  {
    var lines := CoverageLines(g);
    assert line in multiset(lines);
    i :| 0 <= i < |lines| && lines[i] == line;
  }

  /** A bucket of a grouping counts the lines of its category. */
  lemma BucketCounts(g: seq<Bucket>, matched: seq<SkillMatch>, missing: seq<SkillMatch>, bonus: seq<SkillMatch>, i: nat)
    requires Grouped(g, matched, missing, bonus) && i < |g|
    ensures var line := CoverageOf(g[i]);
      && line.matched == |Filter(matched, InCategory(line.category))|
      && line.missing == |Filter(missing, InCategory(line.category))|
      && line.bonus == |Filter(bonus, InCategory(line.category))|
      && (line.total > 0 || line.bonus > 0)
  {
    assert Lines(g[i], MatchedKind) == Filter(matched, InCategory(g[i].category));
    assert Lines(g[i], MissingKind) == Filter(missing, InCategory(g[i].category));
    assert Lines(g[i], BonusKind) == Filter(bonus, InCategory(g[i].category));
    assert g[i].matched + g[i].missing + g[i].bonus != [];
  }

  /** A category has a coverage line exactly when some line of the three lists carries it. */
  lemma CoverageLinePresent(matched: seq<SkillMatch>, missing: seq<SkillMatch>, bonus: seq<SkillMatch>, s: SkillMatch)
    requires s in matched || s in missing || s in bonus
    ensures exists line :: line in GetCategoryCoverage(matched, missing, bonus) && line.category == CategoryOf(s)
  {
    CategoryGrouped(matched, missing, bonus, s);
    LineFor(GroupSkillsByCategory(matched, missing, bonus), GetCategoryCoverage(matched, missing, bonus), CategoryOf(s));
  }

  /** Every line of the three lists has a bucket for its category. */
  lemma CategoryGrouped(matched: seq<SkillMatch>, missing: seq<SkillMatch>, bonus: seq<SkillMatch>, s: SkillMatch)
    requires s in matched || s in missing || s in bonus
    ensures CategoryOf(s) in Categories(GroupSkillsByCategory(matched, missing, bonus))
  {
  }

  /** A reordering of the coverage lines of the buckets has a line for each bucket's category. */
  lemma LineFor(g: seq<Bucket>, r: seq<CategoryLine>, c: string)
    requires c in Categories(g)
    requires multiset(r) == multiset(CoverageLines(g))
    ensures exists line :: line in r && line.category == c
  {
    var i :| 0 <= i < |g| && Categories(g)[i] == c;
    assert CoverageLines(g)[i] in multiset(r);
  }

  /** No category has two coverage lines. */
  lemma CoverageLinesDistinct(matched: seq<SkillMatch>, missing: seq<SkillMatch>, bonus: seq<SkillMatch>)
    ensures var r := GetCategoryCoverage(matched, missing, bonus);
      forall i, j :: 0 <= i < j < |r| ==> r[i].category != r[j].category
  {
    var lines := CoverageLines(GroupSkillsByCategory(matched, missing, bonus));
    DistinctPermutation(lines, GetCategoryCoverage(matched, missing, bonus));
  }

  /** No two lines share a category. */
  ghost predicate DistinctLines(s: seq<CategoryLine>) {
    forall i, j :: 0 <= i < j < |s| ==> s[i].category != s[j].category
  }

  /** A permutation of lines with distinct categories has distinct categories. */
  lemma {:induction false} DistinctPermutation(a: seq<CategoryLine>, b: seq<CategoryLine>)
    requires multiset(a) == multiset(b) && DistinctLines(a)
    ensures DistinctLines(b)
    decreases |b|
  {
    if b != [] {
      assert b[0] in multiset(a);
      var k :| 0 <= k < |a| && a[k] == b[0];
      var rest := a[..k] + a[k + 1..];
      RemoveOne(b, a, k);
      DistinctRemove(a, k);
      DistinctPermutation(rest, b[1..]);
      DistinctCons(a, k, b);
    }
  }

  /** Removing one line keeps the categories distinct, and none of the rest has the removed line's category. */
  lemma DistinctRemove(a: seq<CategoryLine>, k: nat)
    requires DistinctLines(a) && k < |a|
    ensures DistinctLines(a[..k] + a[k + 1..])
    ensures forall x :: x in a[..k] + a[k + 1..] ==> x.category != a[k].category
  {
    var rest := a[..k] + a[k + 1..];
    assert forall i :: 0 <= i < |rest| ==> rest[i] == if i < k then a[i] else a[i + 1];
  }

  lemma DistinctCons(a: seq<CategoryLine>, k: nat, b: seq<CategoryLine>)
    requires k < |a| && b != [] && b[0] == a[k]
    requires DistinctLines(b[1..])
    requires multiset(b[1..]) == multiset(a[..k] + a[k + 1..])
    requires forall x :: x in a[..k] + a[k + 1..] ==> x.category != a[k].category
    ensures DistinctLines(b)
  {
    forall i, j | 0 <= i < j < |b|
      ensures b[i].category != b[j].category
    {
      assert b[j] == b[1..][j - 1];
      assert b[j] in multiset(a[..k] + a[k + 1..]);
      if i > 0 {
        assert b[i] == b[1..][i - 1];
      }
    }
  }

  /** Categories with equal totals keep the order in which they were first met. */
  lemma CoverageStable(matched: seq<SkillMatch>, missing: seq<SkillMatch>, bonus: seq<SkillMatch>, v: real)
    ensures WithKey(GetCategoryCoverage(matched, missing, bonus), TotalOf, v)
         == WithKey(CoverageLines(GroupSkillsByCategory(matched, missing, bonus)), TotalOf, v)
  {
    SortDescStable(CoverageLines(GroupSkillsByCategory(matched, missing, bonus)), TotalOf, v);
  }
}
