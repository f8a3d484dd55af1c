/**
 * The pure part of the match routes. Match records live in a store keyed by
 * (jobId, resumeId). The store's unique index makes this pair one-to-one
 * with the record id, so the pair also stands for the id a status update
 * names. Running a job upserts one record per resume of the recruiter and
 * answers with the matches ranked by final score. Updating a status writes
 * nothing but the status, and recomputation never touches it.
 */
module MatchStore {
  import opened Common
  import opened Sorting
  import opened Scoring
  import opened Matching

  // ---------------------------------------------------------------------------
  // Records and statuses
  // ---------------------------------------------------------------------------

  /** The recruiter workflow status of a match; new records start `Pending`. */
  datatype Status = Pending | Shortlisted | Rejected

  function StatusName(s: Status): string {
    match s
    case Pending => "pending"
    case Shortlisted => "shortlisted"
    case Rejected => "rejected"
  }

  /** The status whitelist: only the three names of the enumeration are accepted. */
  function ParseStatus(text: string): (r: Option<Status>)
    ensures r.Some? <==> text == "pending" || text == "shortlisted" || text == "rejected"
    ensures r.Some? ==> StatusName(r.value) == text
  {
    if text == "pending" then Some(Pending)
    else if text == "shortlisted" then Some(Shortlisted)
    else if text == "rejected" then Some(Rejected)
    else None
  }

  /** Every status name parses back to its status. */
  lemma ParseStatusName(s: Status)
    ensures ParseStatus(StatusName(s)) == Some(s)
  {
  }

  /** A record's key: the job and the resume it pairs. */
  type Key = (Id, Id)

  /** A stored match: its owner, the pair, the computed result and the status. */
  datatype Record = Record(recruiter: Id, jobId: Id, resumeId: Id, result: MatchResult, status: Status)

  type Store = map<Key, Record>

  /** The status a record has after an upsert at `k`: its own if present, else the default. */
  function StatusAfter(store: Store, k: Key): Status {
    if k in store then store[k].status else Pending
  }

  /**
   * `findOneAndUpdate({jobId, resumeId}, update, {upsert: true})`. The update
   * document carries the owner, the pair and the computed result but no
   * status, so an existing record keeps its status and a new one gets the
   * schema default.
   */
  function Upsert(store: Store, recruiter: Id, jobId: Id, resumeId: Id, result: MatchResult): (r: Store)
    ensures r.Keys == store.Keys + {(jobId, resumeId)}
    ensures r[(jobId, resumeId)].recruiter == recruiter && r[(jobId, resumeId)].result == result
    ensures r[(jobId, resumeId)].jobId == jobId && r[(jobId, resumeId)].resumeId == resumeId
    ensures (jobId, resumeId) in store ==> r[(jobId, resumeId)].status == store[(jobId, resumeId)].status
    ensures (jobId, resumeId) !in store ==> r[(jobId, resumeId)].status == Pending
    ensures forall k :: k in store && k != (jobId, resumeId) ==> r[k] == store[k]
  {
    var k := (jobId, resumeId);
    store[k := Record(recruiter, jobId, resumeId, result, StatusAfter(store, k))]
  }

  /** Upserting the same result twice is the same as upserting it once. */
  lemma UpsertIdempotent(store: Store, recruiter: Id, jobId: Id, resumeId: Id, result: MatchResult)
    ensures var once := Upsert(store, recruiter, jobId, resumeId, result);
      Upsert(once, recruiter, jobId, resumeId, result) == once
  {
    var once := Upsert(store, recruiter, jobId, resumeId, result);
    var twice := Upsert(once, recruiter, jobId, resumeId, result);
    assert twice.Keys == once.Keys;
    forall k | k in once
      ensures twice[k] == once[k]
    {
    }
  }

  /** No upsert changes the status of any record already in the store. */
  lemma UpsertKeepsStatuses(store: Store, recruiter: Id, jobId: Id, resumeId: Id, result: MatchResult, k: Key)
    requires k in store
    ensures Upsert(store, recruiter, jobId, resumeId, result)[k].status == store[k].status
  {
  }

  // ---------------------------------------------------------------------------
  // Status updates
  // ---------------------------------------------------------------------------

  datatype StatusReply =
    | BadStatus        // 400: not one of the three names
    | MatchNotFound    // 404: no record under the key owned by the caller
    | StatusSet(key: Key, status: Status, candidateName: string, message: string)

  /**
   * `PUT /:matchId/status`: the whitelist is checked before any lookup, then
   * the caller's record under `key` gets the new status and nothing else.
   */
  function UpdateStatus(store: Store, user: Id, key: Key, text: string): (r: (Store, StatusReply))
    ensures ParseStatus(text).None? <==> r.1.BadStatus?
    ensures r.1.MatchNotFound? <==> ParseStatus(text).Some? && (key !in store || store[key].recruiter != user)
    ensures !r.1.StatusSet? ==> r.0 == store
    ensures r.1.StatusSet? ==>
      && key in store && store[key].recruiter == user
      && r.1.status == ParseStatus(text).value
      && r.0.Keys == store.Keys
      && r.0[key] == store[key].(status := r.1.status)
      && r.1.candidateName == store[key].result.candidateName
      && (forall k :: k in store && k != key ==> r.0[k] == store[k])
  {
    match ParseStatus(text)
    case None => (store, BadStatus)
    case Some(s) =>
      if key !in store || store[key].recruiter != user then (store, MatchNotFound)
      else
        var updated := store[key].(status := s);
        var name := updated.result.candidateName;
        (store[key := updated], StatusSet(key, s, name, "Candidate " + name + " " + text))
  }

  /** A status the recruiter set survives a later recomputation of the same pair. */
  lemma StatusSurvivesUpsert(store: Store, user: Id, key: Key, text: string, result: MatchResult)
    requires UpdateStatus(store, user, key, text).1.StatusSet?
    ensures Upsert(UpdateStatus(store, user, key, text).0, user, key.0, key.1, result)[key].status
         == ParseStatus(text).value
  {
  }

  // ---------------------------------------------------------------------------
  // Running a job against the recruiter's resumes
  // ---------------------------------------------------------------------------

  /** A stored document together with the recruiter who owns it. */
  datatype Owned<T> = Owned(owner: Id, doc: T)

  /** `Job.findOne({_id: jobId, recruiter: user})`: the first job with that id the user owns. */
  function FindJob(jobs: seq<Owned<JobDoc>>, user: Id, jobId: Id): (r: Option<JobDoc>)
    ensures r.Some? ==> r.value.id == jobId && Owned(user, r.value) in jobs
    ensures r.None? ==> forall j :: j in jobs ==> j.owner != user || j.doc.id != jobId
  {
    if jobs == [] then None
    else if jobs[0].owner == user && jobs[0].doc.id == jobId then Some(jobs[0].doc)
    else FindJob(jobs[1..], user, jobId)
  }

  /** `Resume.find({recruiter: user})`: the user's resumes, in store order. */
  function ResumesOf(resumes: seq<Owned<ResumeDoc>>, user: Id): (r: seq<ResumeDoc>)
    ensures |r| <= |resumes|
    ensures forall d :: d in r <==> Owned(user, d) in resumes
  {
    if resumes == [] then []
    else (if resumes[0].owner == user then [resumes[0].doc] else []) + ResumesOf(resumes[1..], user)
  }

  /** One line of the run's answer, before ranking: the record key, the resume and its result. */
  datatype Entry = Entry(key: Key, resumeId: Id, result: MatchResult, status: Status)

  /** The final score an entry is ranked by. */
  function Final(e: Entry): real {
    e.result.scores.final
  }

  /** The record keys a run over `resumes` writes. */
  function RunKeys(jobId: Id, resumes: seq<ResumeDoc>): (r: set<Key>)
    ensures forall i :: 0 <= i < |resumes| ==> (jobId, resumes[i].id) in r
    ensures forall k :: k in r ==> k.0 == jobId && exists i :: 0 <= i < |resumes| && k.1 == resumes[i].id
  {
    if resumes == [] then {}
    else
      var rest := RunKeys(jobId, resumes[1..]);
      assert forall k :: k in rest ==> exists i :: 0 <= i < |resumes| && k.1 == resumes[i].id by {
        forall k | k in rest
          ensures exists i :: 0 <= i < |resumes| && k.1 == resumes[i].id
        {
          var j :| 0 <= j < |resumes| - 1 && k.1 == resumes[1..][j].id;
          assert k.1 == resumes[j + 1].id;
        }
      }
      {(jobId, resumes[0].id)} + rest
  }

  datatype Run = Run(store: Store, entries: seq<Entry>)

  /**
   * The loop of the run: for each resume in turn, match it (`matcher` is
   * `matchResumeToJob` with the job fixed), upsert its record and take the
   * stored record's status into the answer. No status changes on the way.
   */
  function MatchAll(store: Store, user: Id, jobId: Id, resumes: seq<ResumeDoc>, matcher: ResumeDoc -> MatchResult): (r: Run)
    ensures |r.entries| == |resumes|
    ensures forall i :: 0 <= i < |resumes| ==>
      && r.entries[i].key == (jobId, resumes[i].id)
      && r.entries[i].resumeId == resumes[i].id
      && r.entries[i].result == matcher(resumes[i])
      && r.entries[i].status == StatusAfter(store, r.entries[i].key)
    ensures store.Keys <= r.store.Keys
    ensures forall k :: StatusAfter(r.store, k) == StatusAfter(store, k)
    decreases |resumes|
  {
    if resumes == [] then Run(store, [])
    else
      var resume := resumes[0];
      var result := matcher(resume);
      var next := Upsert(store, user, jobId, resume.id, result);
      var key := (jobId, resume.id);
      var rest := MatchAll(next, user, jobId, resumes[1..], matcher);
      assert forall k :: StatusAfter(next, k) == StatusAfter(store, k);
      Run(rest.store, [Entry(key, resume.id, result, StatusAfter(next, key))] + rest.entries)
  }

  /** A run writes exactly the keys of its resumes into the store. */
  lemma {:induction false} MatchAllKeys(store: Store, user: Id, jobId: Id, resumes: seq<ResumeDoc>, matcher: ResumeDoc -> MatchResult)
    ensures MatchAll(store, user, jobId, resumes, matcher).store.Keys == store.Keys + RunKeys(jobId, resumes)
    decreases |resumes|
  {
    if resumes != [] {
      var next := Upsert(store, user, jobId, resumes[0].id, matcher(resumes[0]));
      MatchAllKeys(next, user, jobId, resumes[1..], matcher);
    }
  }

  /**
   * A run writes its owner and pair into every record it touches and leaves
   * every other record as it was.
   */
  lemma {:induction false} MatchAllRecords(store: Store, user: Id, jobId: Id, resumes: seq<ResumeDoc>, matcher: ResumeDoc -> MatchResult, k: Key)
    ensures var s := MatchAll(store, user, jobId, resumes, matcher).store;
      && (k in RunKeys(jobId, resumes) ==> k in s && s[k].recruiter == user && s[k].jobId == k.0 && s[k].resumeId == k.1)
      && (k in store && k !in RunKeys(jobId, resumes) ==> k in s && s[k] == store[k])
    decreases |resumes|
  {
    if resumes != [] {
      var next := Upsert(store, user, jobId, resumes[0].id, matcher(resumes[0]));
      MatchAllRecords(next, user, jobId, resumes[1..], matcher, k);
      MatchAllKeys(next, user, jobId, resumes[1..], matcher);
    }
  }

  /** A ranked line of the answer: `rank` is the 1-based position after sorting. */
  datatype Ranked = Ranked(rank: nat, entry: Entry)

  /** `matches.forEach((m, idx) => m.rank = idx + 1)`. */
  function Rank(entries: seq<Entry>, from: nat): (r: seq<Ranked>)
    ensures |r| == |entries|
    ensures forall i :: 0 <= i < |r| ==> r[i].rank == from + i + 1 && r[i].entry == entries[i]
    decreases |entries|
  {
    if entries == [] then [] else [Ranked(from + 1, entries[0])] + Rank(entries[1..], from + 1)
  }

  function FinalsOf(matches: seq<Ranked>): (r: seq<real>)
    ensures |r| == |matches|
    ensures forall i :: 0 <= i < |r| ==> r[i] == Final(matches[i].entry)
  {
    if matches == [] then [] else [Final(matches[0].entry)] + FinalsOf(matches[1..])
  }

  /** The mean of the finals rounded to one decimal, or 0 when there are none. */
  function AverageScore(finals: seq<real>): (r: real)
    ensures finals == [] ==> r == 0.0
    ensures finals != [] ==> var mean := SumReals(finals) / |finals| as real;
      mean - 1.0 / 20.0 < r <= mean + 1.0 / 20.0 && Tenths(r)
  {
    if finals == [] then 0.0 else Round1(SumReals(finals) / |finals| as real)
  }

  lemma {:induction false} SumRealsBounds(xs: seq<real>, lo: real, hi: real)
    requires forall i :: 0 <= i < |xs| ==> lo <= xs[i] <= hi
    ensures lo * |xs| as real <= SumReals(xs) <= hi * |xs| as real
  {
    if xs != [] {
      SumRealsBounds(xs[1..], lo, hi);
    }
  }

  /** Scores in [0, 100] average to a score in [0, 100]. */
  lemma AverageScoreBounds(finals: seq<real>)
    requires forall i :: 0 <= i < |finals| ==> 0.0 <= finals[i] <= 100.0
    ensures 0.0 <= AverageScore(finals) <= 100.0
  {
    if finals != [] {
      var n := |finals| as real;
      SumRealsBounds(finals, 0.0, 100.0);
      MeanBounds(SumReals(finals), n);
      Round1Bounds(SumReals(finals) / n);
    }
  }

  lemma MeanBounds(sum: real, n: real)
    requires n > 0.0 && 0.0 <= sum <= 100.0 * n
    ensures 0.0 <= sum / n <= 100.0
  {
    var mean := sum / n;
    assert mean * n == sum;
    assert (100.0 - mean) * n >= 0.0;
  }

  datatype RunReply =
    | JobNotFound    // 404
    | NoResumes      // no resume to match: an empty list, count 0
    | Ranking(jobId: Id, jobTitle: string, matches: seq<Ranked>, count: nat, averageScore: real)

  function EntriesOf(matches: seq<Ranked>): (r: seq<Entry>)
    ensures |r| == |matches|
    ensures forall i :: 0 <= i < |r| ==> r[i] == matches[i].entry
  {
    if matches == [] then [] else [matches[0].entry] + EntriesOf(matches[1..])
  }

  /** The resume ids of a sequence of lines, in order. */
  function EntryIds(entries: seq<Entry>): (r: seq<Id>)
    ensures |r| == |entries|
    ensures forall i :: 0 <= i < |r| ==> r[i] == entries[i].resumeId
  {
    if entries == [] then [] else [entries[0].resumeId] + EntryIds(entries[1..])
  }

  function IdsOf(resumes: seq<ResumeDoc>): (r: seq<Id>)
    ensures |r| == |resumes|
    ensures forall i :: 0 <= i < |r| ==> r[i] == resumes[i].id
  {
    if resumes == [] then [] else [resumes[0].id] + IdsOf(resumes[1..])
  }

  lemma {:induction false} EntryIdsAppend(a: seq<Entry>, b: seq<Entry>)
    ensures EntryIds(a + b) == EntryIds(a) + EntryIds(b)
  {
    var l, r := EntryIds(a + b), EntryIds(a) + EntryIds(b);
    assert |l| == |r|;
    forall i | 0 <= i < |l|
      ensures l[i] == r[i]
    {
      if i < |a| {
        assert (a + b)[i] == a[i];
      } else {
        assert (a + b)[i] == b[i - |a|];
      }
    }
  }

  /** Reordering the lines reorders their resume ids the same way. */
  lemma {:induction false} EntryIdsPermutation(a: seq<Entry>, b: seq<Entry>)
    requires multiset(a) == multiset(b)
    ensures multiset(EntryIds(a)) == multiset(EntryIds(b))
    decreases |a|
  {
    if a != [] {
      var x := a[0];
      assert x in multiset(b);
      var j :| 0 <= j < |b| && b[j] == x;
      var pre, post := b[..j], b[j + 1..];
      assert b == pre + [x] + post;
      assert a == [x] + a[1..];
      RemoveOne(a, b, j);
      EntryIdsPermutation(a[1..], pre + post);
      EntryIdsAppend(pre + [x], post);
      EntryIdsAppend(pre, [x]);
      EntryIdsAppend(pre, post);
      EntryIdsAppend([x], a[1..]);
    }
  }

  /**
   * The answer to a run over `entries`: sorted by final score, highest first,
   * ranked from 1, with the rounded mean of the finals.
   */
  function Respond(job: JobDoc, entries: seq<Entry>): (r: RunReply)
    ensures r.Ranking? && r.jobId == job.id && r.jobTitle == job.title
    ensures r.count == |r.matches| == |entries|
    ensures forall i :: 0 <= i < |r.matches| ==> r.matches[i].rank == i + 1
    ensures SortedDesc(EntriesOf(r.matches), Final)
    ensures multiset(EntriesOf(r.matches)) == multiset(entries)
    ensures r.averageScore == AverageScore(FinalsOf(r.matches))
  {
    var sorted := SortDesc(entries, Final);
    var matches := Rank(sorted, 0);
    assert EntriesOf(matches) == sorted;
    Ranking(job.id, job.title, matches, |matches|, AverageScore(FinalsOf(matches)))
  }

  /** Ties in the final score keep the order the resumes were matched in. */
  lemma RespondStable(job: JobDoc, entries: seq<Entry>, v: real)
    ensures WithKey(EntriesOf(Respond(job, entries).matches), Final, v) == WithKey(entries, Final, v)
  {
    var sorted := SortDesc(entries, Final);
    assert EntriesOf(Rank(sorted, 0)) == sorted;
    SortDescStable(entries, Final, v);
  }

  /** `matchResumeToJob` with the job fixed. */
  function Matcher(job: JobDoc, aligned: (seq<real>, seq<real>) -> real): ResumeDoc -> MatchResult {
    (d: ResumeDoc) => MatchResumeToJob(d, job, aligned)
  }

  /**
   * `POST /job/:jobId` for any per-pair matcher: look the job up among the
   * caller's jobs, match every resume of the caller against it, sort by final
   * score (stable, highest first), number the lines from 1 and report the
   * rounded mean.
   */
  function RunWith(store: Store, user: Id, jobId: Id, jobs: seq<Owned<JobDoc>>,
                   resumes: seq<Owned<ResumeDoc>>, matching: JobDoc -> ResumeDoc -> MatchResult): (r: (Store, RunReply))
    ensures r.1.JobNotFound? <==> FindJob(jobs, user, jobId).None?
    ensures r.1.NoResumes? <==> FindJob(jobs, user, jobId).Some? && ResumesOf(resumes, user) == []
    ensures !r.1.Ranking? ==> r.0 == store
    ensures r.1.Ranking? ==> r.1.jobId == jobId && r.1.count == |r.1.matches| == |ResumesOf(resumes, user)|
    ensures r.1.Ranking? ==> forall i :: 0 <= i < |r.1.matches| ==> r.1.matches[i].rank == i + 1
    ensures r.1.Ranking? ==> SortedDesc(EntriesOf(r.1.matches), Final)
    ensures r.1.Ranking? ==> r.1.averageScore == AverageScore(FinalsOf(r.1.matches))
    ensures store.Keys <= r.0.Keys
    ensures forall k :: StatusAfter(r.0, k) == StatusAfter(store, k)
  {
    match FindJob(jobs, user, jobId)
    case None => (store, JobNotFound)
    case Some(job) =>
      var mine := ResumesOf(resumes, user);
      if mine == [] then (store, NoResumes)
      else
        var run := MatchAll(store, user, job.id, mine, matching(job));
        (run.store, Respond(job, run.entries))
  }

  /** The route's run: every pair is scored by `matchResumeToJob`. */
  function RunMatching(store: Store, user: Id, jobId: Id, jobs: seq<Owned<JobDoc>>,
                       resumes: seq<Owned<ResumeDoc>>, aligned: (seq<real>, seq<real>) -> real): (r: (Store, RunReply))
    ensures r.1.Ranking? ==> FindJob(jobs, user, jobId).Some? && forall m :: m in r.1.matches ==>
      exists d :: d in ResumesOf(resumes, user) && m.entry.resumeId == d.id
        && m.entry.result == MatchResumeToJob(d, FindJob(jobs, user, jobId).value, aligned)
  {
    var matching := (job: JobDoc) => Matcher(job, aligned);
    RunWithLines(store, user, jobId, jobs, resumes, matching);
    RunWith(store, user, jobId, jobs, resumes, matching)
  }

  /** The run's resumes whose match has final score `v`. */
  function FinalIs(matcher: ResumeDoc -> MatchResult, v: real): ResumeDoc -> bool {
    (d: ResumeDoc) => matcher(d).scores.final == v
  }

  /** The loop's lines with final score `v` are those resumes, in store order. */
  lemma {:induction false} MatchAllWithKey(store: Store, user: Id, jobId: Id, resumes: seq<ResumeDoc>,
                                            matcher: ResumeDoc -> MatchResult, v: real)
    ensures EntryIds(WithKey(MatchAll(store, user, jobId, resumes, matcher).entries, Final, v))
         == IdsOf(Filter(resumes, FinalIs(matcher, v)))
    decreases |resumes|
  {
    if resumes != [] {
      var next := Upsert(store, user, jobId, resumes[0].id, matcher(resumes[0]));
      var entries := MatchAll(store, user, jobId, resumes, matcher).entries;
      var rest := MatchAll(next, user, jobId, resumes[1..], matcher).entries;
      assert entries == [entries[0]] + rest;
      assert entries[1..] == rest;
      MatchAllWithKey(next, user, jobId, resumes[1..], matcher, v);
      var f := Filter(resumes[1..], FinalIs(matcher, v));
      if Final(entries[0]) == v {
        assert WithKey(entries, Final, v) == [entries[0]] + WithKey(rest, Final, v);
        assert Filter(resumes, FinalIs(matcher, v)) == [resumes[0]] + f;
        assert ([entries[0]] + WithKey(rest, Final, v))[1..] == WithKey(rest, Final, v);
        assert ([resumes[0]] + f)[1..] == f;
      } else {
        assert Filter(resumes, FinalIs(matcher, v)) == [] + f;
      }
    }
  }

  /** A run that answers with a ranking is the loop followed by the answer over its lines. */
  lemma RunWithRanking(store: Store, user: Id, jobId: Id, jobs: seq<Owned<JobDoc>>,
                       resumes: seq<Owned<ResumeDoc>>, matching: JobDoc -> ResumeDoc -> MatchResult)
    requires RunWith(store, user, jobId, jobs, resumes, matching).1.Ranking?
    ensures FindJob(jobs, user, jobId).Some? && ResumesOf(resumes, user) != []
    ensures var run := MatchAll(store, user, jobId, ResumesOf(resumes, user), matching(FindJob(jobs, user, jobId).value));
      RunWith(store, user, jobId, jobs, resumes, matching) == (run.store, Respond(FindJob(jobs, user, jobId).value, run.entries))
  {
  }

  /** Every line of an answer is one of the lines it was given. */
  lemma RespondLines(job: JobDoc, entries: seq<Entry>, m: Ranked)
    requires m in Respond(job, entries).matches
    ensures m.entry in entries
  {
    var matches := Respond(job, entries).matches;
    var i :| 0 <= i < |matches| && matches[i] == m;
    assert EntriesOf(matches)[i] == m.entry;
    assert m.entry in multiset(entries);
  }

  /** Every line of the answer is the match of one of the caller's resumes against the job. */
  lemma RunWithLines(store: Store, user: Id, jobId: Id, jobs: seq<Owned<JobDoc>>,
                     resumes: seq<Owned<ResumeDoc>>, matching: JobDoc -> ResumeDoc -> MatchResult)
    ensures var r := RunWith(store, user, jobId, jobs, resumes, matching);
      r.1.Ranking? ==> forall m :: m in r.1.matches ==>
        exists d :: d in ResumesOf(resumes, user) && m.entry.resumeId == d.id && m.entry.key == (jobId, d.id)
          && m.entry.result == matching(FindJob(jobs, user, jobId).value)(d)
  {
    var r := RunWith(store, user, jobId, jobs, resumes, matching);
    if r.1.Ranking? {
      RunWithRanking(store, user, jobId, jobs, resumes, matching);
      var job := FindJob(jobs, user, jobId).value;
      RespondLinesFrom(store, user, jobId, ResumesOf(resumes, user), matching(job), job);
    }
  }

  /** Every line of the answer to a loop over `rs` is the match of one of `rs`. */
  lemma RespondLinesFrom(store: Store, user: Id, jobId: Id, rs: seq<ResumeDoc>, matcher: ResumeDoc -> MatchResult, job: JobDoc)
    ensures var entries := MatchAll(store, user, jobId, rs, matcher).entries;
      forall m :: m in Respond(job, entries).matches ==>
        exists d :: d in rs && m.entry.resumeId == d.id && m.entry.key == (jobId, d.id) && m.entry.result == matcher(d)
  {
    var entries := MatchAll(store, user, jobId, rs, matcher).entries;
    forall m | m in Respond(job, entries).matches
      ensures exists d :: d in rs && m.entry.resumeId == d.id && m.entry.key == (jobId, d.id) && m.entry.result == matcher(d)
    {
      RespondLines(job, entries, m);
      var j :| 0 <= j < |entries| && entries[j] == m.entry;
      assert rs[j] in rs;
    }
  }

  /**
   * Each resume of the caller yields exactly one line of the answer: the
   * lines' resume ids are a permutation of the caller's resume ids.
   */
  lemma RunWithOnePerResume(store: Store, user: Id, jobId: Id, jobs: seq<Owned<JobDoc>>,
                            resumes: seq<Owned<ResumeDoc>>, matching: JobDoc -> ResumeDoc -> MatchResult)
    requires RunWith(store, user, jobId, jobs, resumes, matching).1.Ranking?
    ensures multiset(EntryIds(EntriesOf(RunWith(store, user, jobId, jobs, resumes, matching).1.matches)))
         == multiset(IdsOf(ResumesOf(resumes, user)))
  {
    RunWithRanking(store, user, jobId, jobs, resumes, matching);
    var job := FindJob(jobs, user, jobId).value;
    RespondOnePerResume(store, user, jobId, ResumesOf(resumes, user), matching(job), job);
  }

  lemma RespondOnePerResume(store: Store, user: Id, jobId: Id, rs: seq<ResumeDoc>, matcher: ResumeDoc -> MatchResult, job: JobDoc)
    ensures multiset(EntryIds(EntriesOf(Respond(job, MatchAll(store, user, jobId, rs, matcher).entries).matches)))
         == multiset(IdsOf(rs))
  {
    var entries := MatchAll(store, user, jobId, rs, matcher).entries;
    MatchAllIds(store, user, jobId, rs, matcher);
    RespondIds(job, entries);
  }

  /** A run has one line per resume, in the order of the resumes. */
  lemma MatchAllIds(store: Store, user: Id, jobId: Id, rs: seq<ResumeDoc>, matcher: ResumeDoc -> MatchResult)
    ensures EntryIds(MatchAll(store, user, jobId, rs, matcher).entries) == IdsOf(rs)
  {
    var entries := MatchAll(store, user, jobId, rs, matcher).entries;
    assert forall i :: 0 <= i < |rs| ==> EntryIds(entries)[i] == IdsOf(rs)[i];
  }

  /** The answer reorders the lines it is given without changing their resume ids. */
  lemma RespondIds(job: JobDoc, entries: seq<Entry>)
    ensures multiset(EntryIds(EntriesOf(Respond(job, entries).matches))) == multiset(EntryIds(entries))
  {
    EntryIdsPermutation(EntriesOf(Respond(job, entries).matches), entries);
  }

  /** Lines with equal final scores appear in the order the caller's resumes are stored. */
  lemma RunWithStable(store: Store, user: Id, jobId: Id, jobs: seq<Owned<JobDoc>>,
                      resumes: seq<Owned<ResumeDoc>>, matching: JobDoc -> ResumeDoc -> MatchResult, v: real)
    requires RunWith(store, user, jobId, jobs, resumes, matching).1.Ranking?
    ensures var job := FindJob(jobs, user, jobId).value;
      EntryIds(WithKey(EntriesOf(RunWith(store, user, jobId, jobs, resumes, matching).1.matches), Final, v))
      == IdsOf(Filter(ResumesOf(resumes, user), FinalIs(matching(job), v)))
  {
    RunWithRanking(store, user, jobId, jobs, resumes, matching);
    var job := FindJob(jobs, user, jobId).value;
    var mine := ResumesOf(resumes, user);
    var run := MatchAll(store, user, jobId, mine, matching(job));
    RespondStable(job, run.entries, v);
    MatchAllWithKey(store, user, jobId, mine, matching(job), v);
  }

  /**
   * A run stores a record for every resume of the caller, owned by the
   * caller, and leaves every record of other pairs as it was.
   */
  lemma RunWithRecords(store: Store, user: Id, jobId: Id, jobs: seq<Owned<JobDoc>>,
                       resumes: seq<Owned<ResumeDoc>>, matching: JobDoc -> ResumeDoc -> MatchResult, k: Key)
    requires RunWith(store, user, jobId, jobs, resumes, matching).1.Ranking?
    ensures var s := RunWith(store, user, jobId, jobs, resumes, matching).0;
      var written := RunKeys(jobId, ResumesOf(resumes, user));
      && s.Keys == store.Keys + written
      && (k in written ==> k in s && s[k].recruiter == user && s[k].jobId == k.0 && s[k].resumeId == k.1)
      && (k in store && k !in written ==> k in s && s[k] == store[k])
  {
    RunWithRanking(store, user, jobId, jobs, resumes, matching);
    var job := FindJob(jobs, user, jobId).value;
    MatchAllKeys(store, user, jobId, ResumesOf(resumes, user), matching(job));
    MatchAllRecords(store, user, jobId, ResumesOf(resumes, user), matching(job), k);
  }

  /** A status the recruiter set survives every later run, and the run's lines show it. */
  lemma StatusSurvivesRun(store: Store, user: Id, key: Key, text: string, jobId: Id,
                          jobs: seq<Owned<JobDoc>>, resumes: seq<Owned<ResumeDoc>>,
                          matching: JobDoc -> ResumeDoc -> MatchResult)
    requires UpdateStatus(store, user, key, text).1.StatusSet?
    ensures var updated := UpdateStatus(store, user, key, text).0;
      var run := RunWith(updated, user, jobId, jobs, resumes, matching);
      && key in run.0 && run.0[key].status == ParseStatus(text).value
      && (run.1.Ranking? ==> forall m :: m in run.1.matches && m.entry.key == key ==> m.entry.status == ParseStatus(text).value)
  {
    var updated := UpdateStatus(store, user, key, text).0;
    assert StatusAfter(updated, key) == ParseStatus(text).value;
    RunWithShowsStatus(updated, user, jobId, jobs, resumes, matching, key);
  }

  /** A run keeps the status under `key`, and every line for `key` shows it. */
  lemma RunWithShowsStatus(store: Store, user: Id, jobId: Id, jobs: seq<Owned<JobDoc>>,
                           resumes: seq<Owned<ResumeDoc>>, matching: JobDoc -> ResumeDoc -> MatchResult, key: Key)
    ensures var run := RunWith(store, user, jobId, jobs, resumes, matching);
      && (key in store ==> key in run.0)
      && StatusAfter(run.0, key) == StatusAfter(store, key)
      && (run.1.Ranking? ==> forall m :: m in run.1.matches && m.entry.key == key ==> m.entry.status == StatusAfter(store, key))
  {
    var run := RunWith(store, user, jobId, jobs, resumes, matching);
    if run.1.Ranking? {
      RunWithRanking(store, user, jobId, jobs, resumes, matching);
      var job := FindJob(jobs, user, jobId).value;
      RespondShowsStatus(store, user, jobId, ResumesOf(resumes, user), matching(job), job, key);
    }
  }

  /** Each line of an answer shows the status its record had before the run. */
  lemma RespondShowsStatus(store: Store, user: Id, jobId: Id, rs: seq<ResumeDoc>, matcher: ResumeDoc -> MatchResult,
                           job: JobDoc, key: Key)
    ensures var entries := MatchAll(store, user, jobId, rs, matcher).entries;
      forall m :: m in Respond(job, entries).matches && m.entry.key == key ==> m.entry.status == StatusAfter(store, key)
  {
    var entries := MatchAll(store, user, jobId, rs, matcher).entries;
    forall m | m in Respond(job, entries).matches && m.entry.key == key
      ensures m.entry.status == StatusAfter(store, key)
    {
      RespondLines(job, entries, m);
    }
  }
}
