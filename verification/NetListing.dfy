/** Listing jobs over the network (crates/agent/src/cmd/job.rs,
    net_list_jobs_json): fold the snapshots that arrive, then sort, filter, trim. */
module NetListing {
  import opened Wrappers
  import opened Jobs
  import opened JobStore
  import opened Merge
  import opened Listing
  import opened JobManagement

  /** Unlike the manager's merge, a record with an equal stamp replaces. */
  function FoldOne(m: map<JobId, JobInstance>, j: JobInstance): map<JobId, JobInstance> {
    if j.id !in m || j.updatedAt >= m[j.id].updatedAt then m[j.id := j] else m
  }

  function FoldAll(l: seq<JobInstance>): map<JobId, JobInstance> {
    if l == [] then map[] else FoldOne(FoldAll(l[..|l| - 1]), l[|l| - 1])
  }

  lemma FoldStep(s: seq<JobInstance>, j: JobInstance)
    ensures FoldAll(s + [j]) == FoldOne(FoldAll(s), j)
  {
    assert (s + [j])[..|s|] == s;
  }

  function Flatten(lists: seq<seq<JobInstance>>): seq<JobInstance> {
    if lists == [] then [] else Flatten(lists[..|lists| - 1]) + lists[|lists| - 1]
  }

  lemma {:induction false} FlattenElements(lists: seq<seq<JobInstance>>, j: JobInstance)
    ensures j in Flatten(lists) <==> exists i :: 0 <= i < |lists| && j in lists[i]
  {
    if lists != [] {
      var front := lists[..|lists| - 1];
      FlattenElements(front, j);
      assert forall i :: 0 <= i < |front| ==> front[i] == lists[i];
    }
  }

  function Reversed(l: seq<JobInstance>): seq<JobInstance> {
    if l == [] then [] else [l[|l| - 1]] + Reversed(l[..|l| - 1])
  }

  /** A record put at the front of a list loses only to strictly newer ones. */
  lemma {:induction false} MergeFront(j: JobInstance, l: seq<JobInstance>)
    ensures MergeAll(map[], [j] + l) == FoldOne(MergeAll(map[], l), j)
  {
    var jl := [j] + l;
    if l == [] {
      assert jl == [j] && jl[..0] == [];
    } else {
      var front, last := l[..|l| - 1], l[|l| - 1];
      MergeFront(j, front);
      assert jl[..|jl| - 1] == [j] + front;
      var m := MergeAll(map[], front);
      assert MergeOne(FoldOne(m, j), last) == FoldOne(MergeOne(m, last), j);
    }
  }

  /** The network fold is the manager's merge of the same records heard in the
      opposite order. */
  lemma {:induction false} FoldIsMergeReversed(l: seq<JobInstance>)
    ensures FoldAll(l) == MergeAll(map[], Reversed(l))
  {
    if l != [] {
      FoldIsMergeReversed(l[..|l| - 1]);
      MergeFront(l[|l| - 1], Reversed(l[..|l| - 1]));
    }
  }

  lemma {:induction false} ReversedElements(l: seq<JobInstance>)
    ensures SameElements(Reversed(l), l)
  {
    if l != [] {
      ReversedElements(l[..|l| - 1]);
      assert l == l[..|l| - 1] + [l[|l| - 1]];
    }
  }

  lemma FoldWinners(l: seq<JobInstance>)
    ensures Winners(FoldAll(l), l)
  {
    FoldIsMergeReversed(l);
    ReversedElements(l);
    MergeWinners(map[], [], Reversed(l));
    assert [] + Reversed(l) == Reversed(l);
  }

  /** What is known after some messages: of every job any of them carried, a newest
      record, and nothing else. */
  lemma NewestHeard(lists: seq<seq<JobInstance>>)
    ensures var known := FoldAll(Flatten(lists));
            && (forall i, j :: 0 <= i < |lists| && j in lists[i] ==> j.id in known && j.updatedAt <= known[j.id].updatedAt)
            && (forall id :: id in known ==> known[id].id == id && exists i :: 0 <= i < |lists| && known[id] in lists[i])
  {
    FoldWinners(Flatten(lists));
    var known := FoldAll(Flatten(lists));
    forall i, j | 0 <= i < |lists| && j in lists[i]
      ensures j.id in known && j.updatedAt <= known[j.id].updatedAt
    {
      FlattenElements(lists, j);
    }
    forall id | id in known
      ensures known[id].id == id && exists i :: 0 <= i < |lists| && known[id] in lists[i]
    {
      FlattenElements(lists, known[id]);
    }
  }

  lemma WinnersShareStamps(f: map<JobId, JobInstance>, m: map<JobId, JobInstance>, l: seq<JobInstance>)
    requires Winners(f, l) && Winners(m, l)
    ensures f.Keys == m.Keys
    ensures forall id :: id in f ==> f[id].updatedAt == m[id].updatedAt
  {
    forall id | id in f
      ensures id in m && f[id].updatedAt <= m[id].updatedAt
    {
      assert f[id] in l;
    }
    forall id | id in m
      ensures id in f && m[id].updatedAt <= f[id].updatedAt
    {
      assert m[id] in l;
    }
  }

  /** Hence it reaches the merge's ids and stamps, and differs from it at most in
      which of several records with one id and one stamp it keeps. */
  lemma FoldAgreesWithMerge(l: seq<JobInstance>)
    ensures var f, m := FoldAll(l), MergeAll(map[], l);
            && Winners(f, l) && f.Keys == m.Keys
            && (forall id :: id in f ==> f[id].updatedAt == m[id].updatedAt)
            && (Consistent(l) ==> f == m)
  {
    FoldWinners(l);
    MergeWinners(map[], [], l);
    assert [] + l == l;
    WinnersShareStamps(FoldAll(l), MergeAll(map[], l), l);
    if Consistent(l) {
      WinnersUnique(FoldAll(l), MergeAll(map[], l), l, l);
    }
  }

  lemma NotYetSeen(s: seq<JobInstance>, i: nat)
    requires DistinctIds(s) && i < |s|
    ensures s[i].id !in IdsOf(s[..i]) && DistinctIds(s[..i])
  {
  }

  method Retain(sorted: seq<JobInstance>, pool: map<JobId, JobInstance>, filter: set<JobStatus>) returns (out: seq<JobInstance>)
    requires Enumerates(sorted, pool, ALL_STATUSES) && Descending(sorted, ByUpdated)
    ensures Enumerates(out, pool, filter) && Descending(out, ByUpdated)
  {
    out := [];
    for i := 0 to |sorted|
      invariant DrawnFrom(out, pool, filter) && DistinctIds(out) && Descending(out, ByUpdated)
      invariant IdsOf(out) == IdsOf(sorted[..i]) * MatchingIds(pool, filter)
      invariant forall k, n :: 0 <= k < |out| && i <= n < |sorted| ==> out[k].updatedAt >= sorted[n].updatedAt
    {
      var job := sorted[i];
      AppendNew(sorted[..i], job) by {
        NotYetSeen(sorted, i);
      }
      assert sorted[..i + 1] == sorted[..i] + [job];
      if Matches(filter, job) {
        AppendNew(out, job);
        out := out + [job];
      }
    }
    assert sorted[..|sorted|] == sorted;
    AllMatch(pool);
  }

  lemma OneMore<T>(a: seq<T>, b: seq<T>, i: nat)
    requires i < |b|
    ensures a + b[..i + 1] == (a + b[..i]) + [b[i]]
  {
  }

  lemma FoldNext(m: map<JobId, JobInstance>, before: seq<JobInstance>, l: seq<JobInstance>, i: nat)
    requires i < |l| && m == FoldAll(before + l[..i]) && Keyed(m)
    ensures FoldOne(m, l[i]) == FoldAll(before + l[..i + 1]) && Keyed(FoldOne(m, l[i]))
  {
    FoldStep(before + l[..i], l[i]);
    OneMore(before, l, i);
  }

  method FoldList(known: map<JobId, JobInstance>, ghost before: seq<JobInstance>, l: seq<JobInstance>)
    returns (m: map<JobId, JobInstance>)
    requires known == FoldAll(before) && Keyed(known)
    ensures m == FoldAll(before + l) && Keyed(m)
  {
    m := known;
    assert before + l[..0] == before && l[..|l|] == l;
    for i := 0 to |l|
      invariant m == FoldAll(before + l[..i]) && Keyed(m)
    {
      FoldNext(m, before, l, i);
      var job := l[i];
      if job.id in m {
        if job.updatedAt >= m[job.id].updatedAt {
          m := m[job.id := job];
        }
      } else {
        m := m[job.id := job];
      }
    }
  }

  /** Snapshots are folded until the timeout (the end of `arrived`) or until
      enough matches are known; with no job heard at all, the local list is used. */
  method NetListJobs(arrived: seq<seq<JobInstance>>, statusFilter: Option<string>, limit: nat, local: JobManager)
    returns (out: seq<JobInstance>, heard: nat)
    requires local.Valid()
    ensures heard <= |arrived|
    ensures var known := FoldAll(Flatten(arrived[..heard]));
            if known == map[] then TopK(out, local.jobs, LocalFilter(statusFilter), BySubmitted, limit)
            else TopK(out, known, NetFilter(statusFilter), ByUpdated, limit)
    ensures heard < |arrived| ==>
      |MatchingIds(FoldAll(Flatten(arrived[..heard])), NetFilter(statusFilter))| >= limit
  {
    var filter := NetFilter(statusFilter);
    var known: map<JobId, JobInstance> := map[];
    heard := 0;
    while heard < |arrived|
      invariant heard <= |arrived|
      invariant known == FoldAll(Flatten(arrived[..heard])) && Keyed(known)
    {
      known := FoldList(known, Flatten(arrived[..heard]), arrived[heard]);
      assert arrived[..heard + 1][..heard] == arrived[..heard];
      heard := heard + 1;
      var matched := Collect(known, filter);
      DistinctIdCount(matched);
      if Min(limit, |matched|) >= limit {
        break;
      }
    }
    if known == map[] {
      out := local.ListJobs(statusFilter, limit);
      return;
    }
    var jobs := Collect(known, ALL_STATUSES);
    SortEnumerates(jobs, known, ALL_STATUSES, ByUpdated);
    jobs := NewestFirst(jobs, ByUpdated);
    jobs := Retain(jobs, known, filter);
    FrontIsTopK(jobs, known, filter, ByUpdated, limit);
    out := Truncate(jobs, limit);
  }
}
