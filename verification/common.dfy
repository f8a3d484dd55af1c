/**
 * Shared vocabulary for the model: an Option type, the ASCII subset of the
 * JavaScript string primitives the services use (toLowerCase, trim, the
 * `\s+` collapse, join), integer formatting, and `Math.round`.
 */
module Common {

  datatype Option<T> = None | Some(value: T)

  // ---------------------------------------------------------------------------
  // Characters
  // ---------------------------------------------------------------------------

  /** The whitespace characters recognised by `trim` and `\s` (ASCII subset plus NBSP). */
  predicate IsSpace(c: char) {
    c == ' ' || c == '\t' || c == '\n' || c == '\r' || c == '\U{B}' || c == '\U{C}' || c == '\U{A0}'
  }

  predicate IsUpper(c: char) { 'A' <= c <= 'Z' }

  predicate IsLower(c: char) { 'a' <= c <= 'z' }

  function LowerChar(c: char): (r: char)
    ensures !IsUpper(r)
    ensures IsSpace(r) <==> IsSpace(c)
  {
    if IsUpper(c) then (c as int + 32) as char else c
  }

  function UpperChar(c: char): (r: char)
    ensures !IsLower(r)
  {
    if IsLower(c) then (c as int - 32) as char else c
  }

  // ---------------------------------------------------------------------------
  // Strings
  // ---------------------------------------------------------------------------

  /** `String.prototype.toLowerCase`, on ASCII letters. */
  function ToLower(s: string): (r: string)
    ensures |r| == |s|
    ensures forall i :: 0 <= i < |s| ==> r[i] == LowerChar(s[i])
  {
    if s == [] then [] else [LowerChar(s[0])] + ToLower(s[1..])
  }

  predicate NoUpper(s: string) {
    forall i :: 0 <= i < |s| ==> !IsUpper(s[i])
  }

  lemma ToLowerIdempotent(s: string)
    ensures ToLower(ToLower(s)) == ToLower(s)
  {
  }

  /** Drops leading whitespace (the left half of `trim`). */
  function TrimStart(s: string): (r: string)
    ensures |r| <= |s|
    ensures r == s[|s| - |r|..]
    ensures r != [] ==> !IsSpace(r[0])
  {
    if s != [] && IsSpace(s[0]) then TrimStart(s[1..]) else s
  }

  /** Drops trailing whitespace (the right half of `trim`). */
  function TrimEnd(s: string): (r: string)
    ensures |r| <= |s|
    ensures r == s[..|r|]
    ensures r != [] ==> !IsSpace(r[|r| - 1])
  {
    if s != [] && IsSpace(s[|s| - 1]) then TrimEnd(s[..|s| - 1]) else s
  }

  /** `String.prototype.trim`. */
  function Trim(s: string): (r: string)
    ensures |r| <= |s|
    ensures Trimmed(r)
  {
    TrimEnd(TrimStart(s))
  }

  predicate Trimmed(s: string) {
    s != [] ==> !IsSpace(s[0]) && !IsSpace(s[|s| - 1])
  }

  predicate AllSpace(s: string) {
    forall i :: 0 <= i < |s| ==> IsSpace(s[i])
  }

  lemma {:induction false} TrimStartDropsSpaces(s: string)
    ensures forall k :: 0 <= k < |s| - |TrimStart(s)| ==> IsSpace(s[k])
  {
    if s != [] && IsSpace(s[0]) {
      TrimStartDropsSpaces(s[1..]);
      forall k | 0 < k < |s| - |TrimStart(s)|
        ensures IsSpace(s[k])
      {
        assert s[k] == s[1..][k - 1];
      }
    }
  }

  lemma {:induction false} TrimEndDropsSpaces(s: string)
    ensures AllSpace(s[|TrimEnd(s)|..])
  {
    if s != [] && IsSpace(s[|s| - 1]) {
      var t := s[..|s| - 1];
      TrimEndDropsSpaces(t);
      assert s[|TrimEnd(s)|..] == t[|TrimEnd(t)|..] + [s[|s| - 1]];
    }
  }

  /**
   * What `trim` returns: the input with a run of whitespace removed from
   * each end, and no whitespace left at either end of the result.
   */
  lemma TrimSpec(s: string)
    ensures exists i, j :: 0 <= i <= j <= |s| && Trim(s) == s[i..j] && AllSpace(s[..i]) && AllSpace(s[j..])
  {
    var t := TrimStart(s);
    var i := |s| - |t|;
    var j := i + |TrimEnd(t)|;
    TrimStartDropsSpaces(s);
    TrimEndDropsSpaces(t);
    assert forall k :: 0 <= k < i ==> s[..i][k] == s[k];
    assert Trim(s) == s[i..j];
    assert s[j..] == t[|TrimEnd(t)|..];
  }

  lemma NoUpperLowerIsSelf(s: string)
    requires NoUpper(s)
    ensures ToLower(s) == s
  {
  }

  lemma TrimKeepsNoUpper(s: string)
    requires NoUpper(s)
    ensures NoUpper(Trim(s))
  {
    var t := TrimStart(s);
    NoUpperSlice(s, |s| - |t|, |s|);
    NoUpperSlice(t, 0, |TrimEnd(t)|);
  }

  lemma NoUpperSlice(s: string, i: nat, j: nat)
    requires NoUpper(s) && i <= j <= |s|
    ensures NoUpper(s[i..j])
  {
    assert forall k :: 0 <= k < j - i ==> s[i..j][k] == s[i + k];
  }

  lemma TrimOfTrimmed(s: string)
    requires Trimmed(s)
    ensures Trim(s) == s
  {
  }

  lemma ToLowerKeepsTrimmed(s: string)
    requires Trimmed(s)
    ensures Trimmed(ToLower(s))
  {
  }

  /** `s.replace(/\s+/g, ' ')`: every maximal run of whitespace becomes one space. */
  function CollapseSpaces(s: string): (r: string)
    ensures |r| <= |s|
    ensures s != [] ==> r != []
    decreases |s|
  {
    if s == [] then []
    else if IsSpace(s[0]) then
      var rest := TrimStart(s);
      [' '] + CollapseSpaces(rest)
    else
      [s[0]] + CollapseSpaces(s[1..])
  }

  /** The first `n` elements, as `substring(0, n)` and `slice(0, n)` return them. */
  function Prefix<T>(s: seq<T>, n: nat): (r: seq<T>)
    ensures |r| <= n && |r| <= |s|
    ensures r == s[..|r|]
    ensures |s| <= n ==> r == s
  {
    if |s| <= n then s else s[..n]
  }

  /** `Array.prototype.join(sep)`. */
  function Join(parts: seq<string>, sep: string): (r: string)
    ensures parts == [] ==> r == []
    ensures |parts| == 1 ==> r == parts[0]
  {
    if parts == [] then []
    else if |parts| == 1 then parts[0]
    else parts[0] + sep + Join(parts[1..], sep)
  }

  /** Upper-cases the first character: `s.charAt(0).toUpperCase() + s.slice(1)`. */
  function Capitalize(s: string): (r: string)
    ensures |r| == |s|
    ensures s != [] ==> r[0] == UpperChar(s[0]) && !IsLower(r[0]) && r[1..] == s[1..]
  {
    if s == [] then [] else [UpperChar(s[0])] + s[1..]
  }

  /** `Array.prototype.filter`: the elements satisfying `p`, in order. */
  function Filter<T(!new)>(s: seq<T>, p: T -> bool): (r: seq<T>)
    ensures |r| <= |s|
    ensures forall x {:trigger x in r} :: x in r <==> x in s && p(x)
  {
    if s == [] then [] else (if p(s[0]) then [s[0]] else []) + Filter(s[1..], p)
  }

  /** Two filters whose tests disagree on every element split the sequence between them. */
  lemma {:induction false} FilterPartition<T(!new)>(s: seq<T>, p: T -> bool, q: T -> bool)
    requires forall x :: x in s ==> p(x) != q(x)
    ensures |Filter(s, p)| + |Filter(s, q)| == |s|
    ensures multiset(Filter(s, p)) + multiset(Filter(s, q)) == multiset(s)
  {
    if s != [] {
      var hp := if p(s[0]) then [s[0]] else [];
      var hq := if q(s[0]) then [s[0]] else [];
      assert s[0] in s;
      FilterPartition(s[1..], p, q);
      assert Filter(s, p) == hp + Filter(s[1..], p);
      assert Filter(s, q) == hq + Filter(s[1..], q);
      assert s == [s[0]] + s[1..];
      SplitStep(s[0], hp, hq, Filter(s[1..], p), Filter(s[1..], q), s[1..]);
    }
  }

  /** One element going to exactly one side keeps the split a partition. */
  lemma SplitStep<T>(x: T, hp: seq<T>, hq: seq<T>, fp: seq<T>, fq: seq<T>, rest: seq<T>)
    requires (hp == [x] && hq == []) || (hp == [] && hq == [x])
    requires |fp| + |fq| == |rest| && multiset(fp) + multiset(fq) == multiset(rest)
    ensures |hp + fp| + |hq + fq| == |[x] + rest|
    ensures multiset(hp + fp) + multiset(hq + fq) == multiset([x] + rest)
  {
  }

  /** Filtering distributes over concatenation. */
  lemma {:induction false} FilterAppend<T(!new)>(s: seq<T>, t: seq<T>, p: T -> bool)
    ensures Filter(s + t, p) == Filter(s, p) + Filter(t, p)
  {
    if s == [] {
      assert s + t == t;
    } else {
      var st := s + t;
      var h := if p(s[0]) then [s[0]] else [];
      assert st[0] == s[0] && st[1..] == s[1..] + t;
      FilterAppend(s[1..], t, p);
      calc {
        Filter(st, p);
        h + Filter(s[1..] + t, p);
        h + (Filter(s[1..], p) + Filter(t, p));
        (h + Filter(s[1..], p)) + Filter(t, p);
        Filter(s, p) + Filter(t, p);
      }
    }
  }

  /** Filtering a sequence extended by one element. */
  lemma FilterSnoc<T(!new)>(s: seq<T>, x: T, p: T -> bool)
    ensures p(x) ==> Filter(s + [x], p) == Filter(s, p) + [x]
    ensures !p(x) ==> Filter(s + [x], p) == Filter(s, p)
  {
    FilterAppend(s, [x], p);
    assert Filter([x], p) == (if p(x) then [x] else []) + Filter([], p);
    assert Filter(s, p) + [] == Filter(s, p);
  }

  /** A filter every element passes changes nothing. */
  lemma {:induction false} FilterAll<T(!new)>(s: seq<T>, p: T -> bool)
    requires forall x :: x in s ==> p(x)
    ensures Filter(s, p) == s
  {
    if s != [] {
      FilterAll(s[1..], p);
      assert s == [s[0]] + s[1..];
    }
  }

  /** A filter no element passes leaves nothing. */
  lemma {:induction false} FilterNone<T(!new)>(s: seq<T>, p: T -> bool)
    requires forall x :: x in s ==> !p(x)
    ensures Filter(s, p) == []
  {
    if s != [] {
      FilterNone(s[1..], p);
    }
  }

  /** Taking the same element out of two permutations leaves two permutations. */
  lemma RemoveOne<T>(a: seq<T>, b: seq<T>, j: nat)
    requires multiset(a) == multiset(b) && a != [] && j < |b| && b[j] == a[0]
    ensures multiset(a[1..]) == multiset(b[..j] + b[j + 1..])
  {
    var x, pre, post := a[0], b[..j], b[j + 1..];
    assert b == pre + [x] + post;
    assert a == [x] + a[1..];
    calc {
      multiset(a[1..]);
      multiset(a) - multiset{x};
      multiset(b) - multiset{x};
      multiset(pre) + multiset(post);
      multiset(pre + post);
    }
  }

  /** Filtering keeps the relative order: two kept elements come from two positions in the same order. */
  lemma FilterKeepsOrder<T(!new)>(s: seq<T>, p: T -> bool, i: nat, j: nat)
    requires i < j < |Filter(s, p)|
    ensures exists a, b :: 0 <= a < b < |s| && s[a] == Filter(s, p)[i] && s[b] == Filter(s, p)[j]
  {
    var a, b := FilterOrigins(s, p, i, j);
  }

  /** The positions two kept elements come from, in the order they are kept. */
  lemma {:induction false} FilterOrigins<T(!new)>(s: seq<T>, p: T -> bool, i: nat, j: nat) returns (a: nat, b: nat)
    requires i < j < |Filter(s, p)|
    ensures a < b < |s| && s[a] == Filter(s, p)[i] && s[b] == Filter(s, p)[j]
    decreases |s|
  {
    var f, tail := Filter(s, p), Filter(s[1..], p);
    var k := if p(s[0]) then 1 else 0;
    assert f == (if p(s[0]) then [s[0]] else []) + tail;
    if k == 1 && i == 0 {
      assert f[j] == tail[j - 1];
      var b' := FilterOrigin(s[1..], p, j - 1);
      a, b := 0, b' + 1;
    } else {
      assert f[i] == tail[i - k] && f[j] == tail[j - k];
      var a', b' := FilterOrigins(s[1..], p, i - k, j - k);
      a, b := a' + 1, b' + 1;
    }
  }

  /** The position a kept element comes from. */
  lemma {:induction false} FilterOrigin<T(!new)>(s: seq<T>, p: T -> bool, j: nat) returns (b: nat)
    requires j < |Filter(s, p)|
    ensures b < |s| && s[b] == Filter(s, p)[j]
    decreases |s|
  {
    var tail := Filter(s[1..], p);
    if p(s[0]) && j == 0 {
      b := 0;
    } else {
      var k := if p(s[0]) then 1 else 0;
      assert Filter(s, p)[j] == tail[j - k];
      var b' := FilterOrigin(s[1..], p, j - k);
      b := b' + 1;
    }
  }

  /** `s.split(c)` for a one-character separator: the pieces between separators, at least one. */
  function SplitOn(s: string, c: char): (r: seq<string>)
    ensures r != []
    ensures forall i :: 0 <= i < |r| ==> c !in r[i]
    decreases |s|
  {
    if s == [] then [[]]
    else
      var rest := SplitOn(s[1..], c);
      if s[0] == c then [[]] + rest else [[s[0]] + rest[0]] + rest[1..]
  }

  /** A string without the separator splits into itself. */
  lemma {:induction false} SplitOnPlain(a: string, c: char)
    requires c !in a
    ensures SplitOn(a, c) == [a]
    decreases |a|
  {
    if a != [] {
      SplitOnPlain(a[1..], c);
      assert [a[0]] + a[1..] == a;
    }
  }

  /** The first separator ends the first piece. */
  lemma {:induction false} SplitOnAfter(a: string, b: string, c: char)
    requires c !in a
    ensures SplitOn(a + [c] + b, c) == [a] + SplitOn(b, c)
    decreases |a|
  {
    var s := a + [c] + b;
    if a == [] {
      assert s[1..] == b;
    } else {
      assert s[1..] == a[1..] + [c] + b;
      SplitOnAfter(a[1..], b, c);
      assert [a[0]] + a[1..] == a;
    }
  }

  /** Splitting at the separator undoes joining pieces that do not contain it. */
  lemma {:induction false} SplitJoin(parts: seq<string>, c: char)
    requires parts != []
    requires forall i :: 0 <= i < |parts| ==> c !in parts[i]
    ensures SplitOn(Join(parts, [c]), c) == parts
  {
    if |parts| == 1 {
      SplitOnPlain(parts[0], c);
    } else {
      SplitJoin(parts[1..], c);
      SplitOnAfter(parts[0], Join(parts[1..], [c]), c);
      assert parts == [parts[0]] + parts[1..];
    }
  }

  /** Joined pieces are empty only when there is no piece, or a single empty one. */
  lemma JoinEmpty(parts: seq<string>, sep: string)
    requires parts != [] && parts[0] != []
    ensures Join(parts, sep) != []
  {
    if |parts| > 1 {
      assert |Join(parts, sep)| >= |parts[0]|;
    }
  }

  lemma ToLowerAppend(s: string, t: string)
    ensures ToLower(s + t) == ToLower(s) + ToLower(t)
  {
    var l, r := ToLower(s + t), ToLower(s) + ToLower(t);
    assert |l| == |r|;
    forall i | 0 <= i < |l|
      ensures l[i] == r[i]
    {
      if i < |s| {
        assert (s + t)[i] == s[i];
      } else {
        assert (s + t)[i] == t[i - |s|];
      }
    }
  }

  // ---------------------------------------------------------------------------
  // First occurrences
  // ---------------------------------------------------------------------------

  /** `seen` followed by the elements of `s` not met before, in the order they first occur. */
  function AppendUnseen<T(==,!new)>(seen: seq<T>, s: seq<T>): (r: seq<T>)
    ensures forall x :: x in r <==> x in seen || x in s
  {
    if s == [] then seen
    else
      var front := AppendUnseen(seen, s[..|s| - 1]);
      assert forall x :: x in s <==> x in s[..|s| - 1] || x == s[|s| - 1];
      if s[|s| - 1] in front then front else front + [s[|s| - 1]]
  }

  /** The distinct elements of `s`, in the order they first occur. */
  function FirstSeen<T(==,!new)>(s: seq<T>): seq<T> {
    AppendUnseen([], s)
  }

  /** The position of the first occurrence of `x` in `s`. */
  function FirstIndex<T(==,!new)>(s: seq<T>, x: T): (k: nat)
    requires x in s
    ensures k < |s| && s[k] == x
    ensures forall i :: 0 <= i < k ==> s[i] != x
  {
    if s[0] == x then 0 else 1 + FirstIndex(s[1..], x)
  }

  /** Extending `s` leaves the first occurrences of its elements where they were. */
  lemma FirstIndexSnoc<T(!new)>(s: seq<T>, c: T, x: T)
    requires x in s
    ensures FirstIndex(s + [c], x) == FirstIndex(s, x)
  {
    assert (s + [c])[FirstIndex(s, x)] == x;
  }

  /** A new element first occurs at the end. */
  lemma FirstIndexNew<T(!new)>(s: seq<T>, c: T)
    requires c !in s
    ensures FirstIndex(s + [c], c) == |s|
  {
    assert (s + [c])[|s|] == c;
  }

  /** Seeding with the unseen elements of `a` and then `b` is seeding with those of `a + b`. */
  lemma {:induction false} AppendUnseenConcat<T(!new)>(seen: seq<T>, a: seq<T>, b: seq<T>)
    ensures AppendUnseen(AppendUnseen(seen, a), b) == AppendUnseen(seen, a + b)
  {
    if b == [] {
      assert a + b == a;
    } else {
      var init := b[..|b| - 1];
      AppendUnseenConcat(seen, a, init);
      assert (a + b)[..|a + b| - 1] == a + init;
    }
  }

  /** `FirstSeen` lists its elements in the order of their first occurrences, so none twice. */
  lemma {:induction false} FirstSeenOrder<T(!new)>(s: seq<T>)
    ensures forall i, j :: 0 <= i < j < |FirstSeen(s)| ==> FirstIndex(s, FirstSeen(s)[i]) < FirstIndex(s, FirstSeen(s)[j])
  {
    if s != [] {
      var init, c := s[..|s| - 1], s[|s| - 1];
      var front, r := FirstSeen(init), FirstSeen(s);
      FirstSeenOrder(init);
      assert s == init + [c];
      forall x | x in front
        ensures FirstIndex(s, x) == FirstIndex(init, x) < |init|
      {
        FirstIndexSnoc(init, c, x);
      }
      if c !in front {
        FirstIndexNew(init, c);
      }
    }
  }

  // ---------------------------------------------------------------------------
  // Numbers
  // ---------------------------------------------------------------------------

  function DigitChar(d: nat): char
    requires d < 10
  {
    ('0' as int + d) as char
  }

  /** Decimal rendering of a natural number, as a template literal prints it. */
  function NatToString(n: nat): (r: string)
    ensures r != []
    ensures forall i :: 0 <= i < |r| ==> '0' <= r[i] <= '9'
    ensures |r| > 1 ==> r[0] != '0'
    ensures DigitsValue(r) == n
  {
    if n < 10 then [DigitChar(n)]
    else
      var front := NatToString(n / 10);
      DigitsValueSnoc(front, DigitChar(n % 10));
      front + [DigitChar(n % 10)]
  }

  function Pow10(k: nat): (r: nat)
    ensures r >= 1
  {
    if k == 0 then 1 else 10 * Pow10(k - 1)
  }

  /** The number a string of decimal digits denotes, read from the most significant digit. */
  function DigitsValue(s: string): int {
    if s == [] then 0 else (s[0] as int - '0' as int) * Pow10(|s| - 1) + DigitsValue(s[1..])
  }

  /** Appending a digit shifts the value one place and adds the digit. */
  lemma {:induction false} DigitsValueSnoc(s: string, c: char)
    ensures DigitsValue(s + [c]) == 10 * DigitsValue(s) + (c as int - '0' as int)
  {
    if s != [] {
      assert (s + [c])[1..] == s[1..] + [c];
      DigitsValueSnoc(s[1..], c);
    }
  }

  function MinReal(a: real, b: real): (r: real)
    ensures r <= a && r <= b && (r == a || r == b)
  {
    if a <= b then a else b
  }

  function MaxReal(a: real, b: real): (r: real)
    ensures r >= a && r >= b && (r == a || r == b)
  {
    if a >= b then a else b
  }

  /** `Math.round`: the nearest integer, halves rounded up. */
  function Round(x: real): (r: int)
    ensures x - 1.0 / 2.0 < r as real <= x + 1.0 / 2.0
  {
    (x + 1.0 / 2.0).Floor
  }

  lemma RoundMonotone(x: real, y: real)
    requires x <= y
    ensures Round(x) <= Round(y)
  {
  }

  lemma RoundBounds(x: real, lo: int, hi: int)
    requires lo as real <= x <= hi as real
    ensures lo <= Round(x) <= hi
  {
  }

  /** `x` has at most two decimals: it is a whole number of hundredths. */
  predicate Hundredths(x: real) {
    (x * 100.0).Floor as real == x * 100.0
  }

  /** `x` has at most one decimal: it is a whole number of tenths. */
  predicate Tenths(x: real) {
    (x * 10.0).Floor as real == x * 10.0
  }

  /** `Math.round(x * 100) / 100`: two decimals. */
  function Round2(x: real): (r: real)
    ensures x - 1.0 / 200.0 < r <= x + 1.0 / 200.0
    ensures Hundredths(r)
  {
    Round(x * 100.0) as real / 100.0
  }

  /** `Math.round(x * 10) / 10`: one decimal. */
  function Round1(x: real): (r: real)
    ensures x - 1.0 / 20.0 < r <= x + 1.0 / 20.0
    ensures Tenths(r)
  {
    Round(x * 10.0) as real / 10.0
  }

  /** Two whole numbers less than one apart are equal. */
  lemma WholeClose(a: int, b: int)
    requires a as real - b as real < 1.0 && b as real - a as real < 1.0
    ensures a == b
  {
  }

  /** The window and the two-decimal granularity pin the rounded value down. */
  lemma Round2Unique(x: real, r: real)
    requires x - 1.0 / 200.0 < r <= x + 1.0 / 200.0 && Hundredths(r)
    ensures r == Round2(x)
  {
    var q := Round2(x);
    WholeClose((r * 100.0).Floor, (q * 100.0).Floor);
  }

  /** The window and the one-decimal granularity pin the rounded value down. */
  lemma Round1Unique(x: real, r: real)
    requires x - 1.0 / 20.0 < r <= x + 1.0 / 20.0 && Tenths(r)
    ensures r == Round1(x)
  {
    var q := Round1(x);
    WholeClose((r * 10.0).Floor, (q * 10.0).Floor);
  }

  /** A value with at most two decimals is left as it is. */
  lemma Round2Fixes(x: real)
    requires Hundredths(x)
    ensures Round2(x) == x
  {
    Round2Unique(x, x);
  }

  /**
   * `Math.round(part / total * 100)` is the whole percentage `r` with
   * `r - 1/2 <= 100 * part / total < r + 1/2`, halves going up.
   */
  predicate RoundedPercent(r: int, part: nat, total: nat) {
    (2 * r - 1) * total <= 200 * part < (2 * r + 1) * total
  }

  lemma PercentRound(part: nat, total: nat)
    requires total > 0
    ensures RoundedPercent(Round(part as real / total as real * 100.0), part, total)
  {
    var share := part as real / total as real;
    var r := Round(share * 100.0);
    assert share * total as real == part as real;
    ShareBelow(share, 2 * r + 1, part, total);
    ShareAbove(share, 2 * r - 1, part, total);
  }

  /** A share of `total` below `k / 200` is a part with `200 * part < k * total`. */
  lemma ShareBelow(share: real, k: int, part: nat, total: nat)
    requires total > 0 && share * total as real == part as real
    requires share * 200.0 < k as real
    ensures 200 * part < k * total
  {
    var t := total as real;
    assert (share * 200.0) * t < k as real * t by {
      assert (k as real - share * 200.0) * t > 0.0;
    }
    assert (k * total) as real == k as real * t;
    assert (200 * part) as real == (share * 200.0) * t;
  }

  /** A share of `total` of at least `k / 200` is a part with `k * total <= 200 * part`. */
  lemma ShareAbove(share: real, k: int, part: nat, total: nat)
    requires total > 0 && share * total as real == part as real
    requires k as real <= share * 200.0
    ensures k * total <= 200 * part
  {
    var t := total as real;
    assert k as real * t <= (share * 200.0) * t by {
      assert (share * 200.0 - k as real) * t >= 0.0;
    }
    assert (k * total) as real == k as real * t;
    assert (200 * part) as real == (share * 200.0) * t;
  }

  /** At most one whole percentage fits the rounding window. */
  lemma RoundedPercentUnique(r1: int, r2: int, part: nat, total: nat)
    requires total > 0 && RoundedPercent(r1, part, total) && RoundedPercent(r2, part, total)
    ensures r1 == r2
  {
  }

  /** A rounded share of a whole lies in [0, 100], and the whole itself rounds to 100. */
  lemma RoundedPercentBounds(r: int, part: nat, total: nat)
    requires total > 0 && part <= total && RoundedPercent(r, part, total)
    ensures 0 <= r <= 100
    ensures part == total ==> r == 100
  {
    FactorLe(0, 2 * r + 1, total);
    FactorLe(2 * r - 1, 200, total);
    FactorLe(2 * r + 1, 200, total);
    assert 200 * part <= 200 * total;
  }

  /** A positive factor keeps the order of whole numbers. */
  lemma FactorLe(a: int, b: int, t: int)
    requires t > 0
    ensures a * t <= b * t <==> a <= b
  {
    assert a * t - b * t == (a - b) * t;
    assert b * t - a * t == (b - a) * t;
    if a > b {
      MulAtLeast(a - b, t);
    } else if a < b {
      MulAtLeast(b - a, t);
    }
  }

  lemma {:induction false} MulAtLeast(d: int, t: int)
    requires d >= 1 && t > 0
    ensures d * t >= t
    decreases d
  {
    if d > 1 {
      MulAtLeast(d - 1, t);
      assert d * t == (d - 1) * t + t;
    }
  }

  /** Rounding to one decimal keeps a value inside [0, 100]. */
  lemma Round1Bounds(x: real)
    requires 0.0 <= x <= 100.0
    ensures 0.0 <= Round1(x) <= 100.0
  {
    RoundBounds(x * 10.0, 0, 1000);
  }

  /** Decimal rendering of an integer, with a leading minus sign when negative. */
  function IntToString(i: int): (r: string)
    ensures r != []
  {
    if i < 0 then "-" + NatToString(-i) else NatToString(i)
  }

  function SumReals(xs: seq<real>): real {
    if xs == [] then 0.0 else xs[0] + SumReals(xs[1..])
  }

  /** Being a prefix is transitive. */
  lemma PrefixChain<T>(a: seq<T>, b: seq<T>, c: seq<T>)
    requires |a| <= |b| && b[..|a|] == a
    requires |b| <= |c| && c[..|b|] == b
    ensures c[..|a|] == a
  {
    assert c[..|a|] == c[..|b|][..|a|];
  }

  /** A property of the head and of every element of the tail holds throughout. */
  lemma HeadAndTail<T>(xs: seq<T>, p: T -> bool)
    requires xs != [] && p(xs[0])
    requires forall x :: x in xs[1..] ==> p(x)
    ensures forall x :: x in xs ==> p(x)
  {
    assert xs == [xs[0]] + xs[1..];
  }
}
