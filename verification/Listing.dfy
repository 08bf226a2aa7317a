/** Sorted, filtered and truncated job lists: what `list_jobs`, the gossip
    snapshots and the network listing have in common. */
module Listing {
  import opened Wrappers
  import opened Jobs
  import opened JobStore
  import opened Sorting

  datatype SortKey = BySubmitted | ByUpdated

  function KeyOf(key: SortKey, j: JobInstance): nat {
    match key
    case BySubmitted => j.submittedAt
    case ByUpdated => j.updatedAt
  }

  const ALL_STATUSES: set<JobStatus> := {Pending, Running, Completed, Failed, Cancelled}

  predicate Matches(filter: set<JobStatus>, j: JobInstance) {
    j.status in filter
  }

  // ---------- status names ----------

  function LowerChar(c: char): char {
    if 'A' <= c <= 'Z' then (c as int + 32) as char else c
  }

  function Lower(s: string): string {
    if s == [] then [] else [LowerChar(s[0])] + Lower(s[1..])
  }

  /** A status in Debug form, lower-cased. */
  function StatusName(s: JobStatus): string {
    match s
    case Pending => "pending"
    case Running => "running"
    case Completed => "completed"
    case Failed => "failed"
    case Cancelled => "cancelled"
  }

  function ParseStatus(s: string): Option<JobStatus> {
    match s
    case "pending" => Some(Pending)
    case "running" => Some(Running)
    case "completed" => Some(Completed)
    case "failed" => Some(Failed)
    case "cancelled" => Some(Cancelled)
    case _ => None
  }

  /** The filter of `list_jobs`: a name it does not know filters nothing. */
  function LocalFilter(name: Option<string>): set<JobStatus> {
    if name.Some? && ParseStatus(Lower(name.value)).Some?
    then {ParseStatus(Lower(name.value)).value}
    else ALL_STATUSES
  }

  /** The filter of the network listing compares names. */
  function NetFilter(name: Option<string>): set<JobStatus> {
    if name.Some? then set s | s in ALL_STATUSES && StatusName(s) == Lower(name.value) else ALL_STATUSES
  }

  /** The two listings filter alike exactly when the name is absent or known: with
      an unknown name the local one shows every job and the network one none. */
  lemma FiltersAgree(name: Option<string>)
    ensures LocalFilter(name) == NetFilter(name) <==> name.None? || ParseStatus(Lower(name.value)).Some?
    ensures LocalFilter(name) != NetFilter(name) ==> LocalFilter(name) == ALL_STATUSES && NetFilter(name) == {}
  {
    assert Pending in ALL_STATUSES;
    if name.Some? {
      var parsed := ParseStatus(Lower(name.value));
      forall s | s in ALL_STATUSES
        ensures s in NetFilter(name) <==> parsed == Some(s)
      {
      }
    }
  }

  /** `text` is `name` in any mixture of cases. */
  predicate AnyCase(text: string, name: string) {
    |text| == |name| && forall i :: 0 <= i < |name| ==>
      text[i] == name[i] || ('a' <= name[i] <= 'z' && text[i] as int == name[i] as int - 32)
  }

  lemma {:induction false} LowerAnyCase(text: string, name: string)
    requires AnyCase(text, name) && forall i :: 0 <= i < |name| ==> 'a' <= name[i] <= 'z'
    ensures Lower(text) == name
  {
    if name != [] {
      LowerAnyCase(text[1..], name[1..]);
      assert name == [name[0]] + name[1..];
    }
  }

  /** Each status is asked for by its own name, in any mixture of cases. */
  lemma StatusAskedFor(text: string)
    ensures AnyCase(text, "pending") ==> LocalFilter(Some(text)) == {Pending}
    ensures AnyCase(text, "running") ==> LocalFilter(Some(text)) == {Running}
    ensures AnyCase(text, "completed") ==> LocalFilter(Some(text)) == {Completed}
    ensures AnyCase(text, "failed") ==> LocalFilter(Some(text)) == {Failed}
    ensures AnyCase(text, "cancelled") ==> LocalFilter(Some(text)) == {Cancelled}
    ensures LocalFilter(None) == {Pending, Running, Completed, Failed, Cancelled}
  {
    if AnyCase(text, "pending") {
      LowerAnyCase(text, "pending");
    }
    if AnyCase(text, "running") {
      LowerAnyCase(text, "running");
    }
    if AnyCase(text, "completed") {
      LowerAnyCase(text, "completed");
    }
    if AnyCase(text, "failed") {
      LowerAnyCase(text, "failed");
    }
    if AnyCase(text, "cancelled") {
      LowerAnyCase(text, "cancelled");
    }
  }

  // ---------- top-k ----------

  function Rank(key: SortKey): JobInstance -> int {
    (j: JobInstance) => 0 as int - KeyOf(key, j)
  }

  /** Rust's stable `sort_by` with the comparison reversed. */
  function NewestFirst(s: seq<JobInstance>, key: SortKey): seq<JobInstance> {
    StableSort(s, Rank(key))
  }

  ghost predicate Descending(s: seq<JobInstance>, key: SortKey) {
    forall i, k :: 0 <= i < k < |s| ==> KeyOf(key, s[i]) >= KeyOf(key, s[k])
  }

  ghost predicate DistinctIds(s: seq<JobInstance>) {
    forall i, k :: 0 <= i < k < |s| ==> s[i].id != s[k].id
  }

  ghost function MatchingIds(pool: map<JobId, JobInstance>, filter: set<JobStatus>): set<JobId> {
    set id | id in pool && Matches(filter, pool[id])
  }

  /** Every entry is the pool's record of its id, and matches. */
  ghost predicate DrawnFrom(s: seq<JobInstance>, pool: map<JobId, JobInstance>, filter: set<JobStatus>) {
    forall i :: 0 <= i < |s| ==> s[i].id in pool && pool[s[i].id] == s[i] && Matches(filter, s[i])
  }

  function IdsOf(s: seq<JobInstance>): set<JobId> {
    set i | 0 <= i < |s| :: s[i].id
  }

  /** No omitted match has a larger key than a listed one. */
  ghost predicate Outranks(s: seq<JobInstance>, pool: map<JobId, JobInstance>, filter: set<JobStatus>, key: SortKey) {
    forall id, i :: id in MatchingIds(pool, filter) && id !in IdsOf(s) && 0 <= i < |s|
                    ==> KeyOf(key, s[i]) >= KeyOf(key, pool[id])
  }

  lemma AllMatch(pool: map<JobId, JobInstance>)
    ensures MatchingIds(pool, ALL_STATUSES) == pool.Keys
  {
    forall id | id in pool
      ensures Matches(ALL_STATUSES, pool[id])
    {
      var s := pool[id].status;
      assert s == Pending || s == Running || s == Completed || s == Failed || s == Cancelled;
    }
  }

  function Min(a: nat, b: nat): nat {
    if a < b then a else b
  }

  /** `out` is the first `limit` of the jobs of `pool` that match, largest key
      first, each at most once. */
  ghost predicate TopK(
    out: seq<JobInstance>, pool: map<JobId, JobInstance>, filter: set<JobStatus>, key: SortKey, limit: nat)
  {
    && |out| == Min(limit, |MatchingIds(pool, filter)|)
    && DrawnFrom(out, pool, filter)
    && DistinctIds(out)
    && Descending(out, key)
    && Outranks(out, pool, filter, key)
  }

  lemma AppendNew(s: seq<JobInstance>, j: JobInstance)
    requires DistinctIds(s) && j.id !in IdsOf(s)
    ensures DistinctIds(s + [j]) && IdsOf(s + [j]) == IdsOf(s) + {j.id}
  {
    var t := s + [j];
    assert forall k :: 0 <= k < |s| ==> s[k].id in IdsOf(s) && t[k] == s[k];
    assert t[|s|] == j;
  }

  lemma {:induction false} DistinctIdCount(s: seq<JobInstance>)
    requires DistinctIds(s)
    ensures |IdsOf(s)| == |s|
  {
    if s != [] {
      var front, last := s[..|s| - 1], s[|s| - 1];
      DistinctIdCount(front);
      assert IdsOf(s) == IdsOf(front) + {last.id};
      assert last.id !in IdsOf(front);
    }
  }

  /** `vals` lists every match once, in any order. */
  ghost predicate Enumerates(vals: seq<JobInstance>, pool: map<JobId, JobInstance>, filter: set<JobStatus>) {
    DrawnFrom(vals, pool, filter) && DistinctIds(vals) && IdsOf(vals) == MatchingIds(pool, filter)
  }

  lemma SameRecords(s: seq<JobInstance>, t: seq<JobInstance>, pool: map<JobId, JobInstance>, filter: set<JobStatus>)
    requires Enumerates(s, pool, filter) && multiset(s) == multiset(t) && Distinct(t)
    ensures Enumerates(t, pool, filter)
  {
    forall i | 0 <= i < |t|
      ensures t[i].id in pool && pool[t[i].id] == t[i] && Matches(filter, t[i])
    {
      PermutationElements(s, t, t[i]);
    }
    forall id | id in MatchingIds(pool, filter)
      ensures id in IdsOf(t)
    {
      assert id in IdsOf(s);
      PermutationElements(s, t, pool[id]);
    }
  }

  lemma SortEnumerates(vals: seq<JobInstance>, pool: map<JobId, JobInstance>, filter: set<JobStatus>, key: SortKey)
    requires Enumerates(vals, pool, filter)
    ensures Enumerates(NewestFirst(vals, key), pool, filter)
    ensures Descending(NewestFirst(vals, key), key)
    ensures |NewestFirst(vals, key)| == |vals|
  {
    var t := NewestFirst(vals, key);
    StableSortSorted(vals, Rank(key));
    StableSortPermutes(vals, Rank(key));
    assert Descending(t, key) by {
      forall i, k | 0 <= i < k < |t|
        ensures KeyOf(key, t[i]) >= KeyOf(key, t[k])
      {
        assert Rank(key)(t[i]) <= Rank(key)(t[k]);
      }
    }
    assert Distinct(vals);
    DistinctPermutes(vals, t);
    SameRecords(vals, t, pool, filter);
  }

  lemma Omitted(t: seq<JobInstance>, n: nat, id: JobId) returns (k: nat)
    requires n <= |t| && id in IdsOf(t) && id !in IdsOf(t[..n])
    ensures n <= k < |t| && t[k].id == id
  {
    assert forall p :: 0 <= p < n ==> t[..n][p].id in IdsOf(t[..n]);
    k :| 0 <= k < |t| && t[k].id == id;
  }

  lemma FrontOutranks(t: seq<JobInstance>, pool: map<JobId, JobInstance>, filter: set<JobStatus>, key: SortKey, n: nat)
    requires Enumerates(t, pool, filter) && Descending(t, key) && n <= |t|
    ensures Outranks(t[..n], pool, filter, key)
  {
    forall id, i | id in MatchingIds(pool, filter) && id !in IdsOf(t[..n]) && 0 <= i < n
      ensures KeyOf(key, t[i]) >= KeyOf(key, pool[id])
    {
      var k := Omitted(t, n, id);
    }
  }

  /** The front of an enumeration in descending order is the top k. */
  lemma FrontIsTopK(t: seq<JobInstance>, pool: map<JobId, JobInstance>, filter: set<JobStatus>, key: SortKey, limit: nat)
    requires Enumerates(t, pool, filter) && Descending(t, key)
    ensures TopK(t[..Min(limit, |t|)], pool, filter, key, limit)
  {
    DistinctIdCount(t);
    FrontOutranks(t, pool, filter, key, Min(limit, |t|));
  }

  lemma {:induction false} SubsetSizes<T>(a: set<T>, b: set<T>)
    requires a <= b
    ensures |a| <= |b|
    ensures |a| == |b| <==> a == b
  {
    if a != {} {
      var x :| x in a;
      SubsetSizes(a - {x}, b - {x});
      assert a == (a - {x}) + {x} && b == (b - {x}) + {x};
    }
  }

  lemma UnlimitedTopKEnumerates(s: seq<JobInstance>, pool: map<JobId, JobInstance>, key: SortKey)
    requires TopK(s, pool, ALL_STATUSES, key, |pool|)
    ensures Enumerates(s, pool, ALL_STATUSES)
  {
    AllMatch(pool);
    assert |pool.Keys| == |pool|;
    DistinctIdCount(s);
    assert IdsOf(s) <= pool.Keys;
    SubsetSizes(IdsOf(s), pool.Keys);
  }

  /** The values of the map in arbitrary order, those that match retained. */
  method Collect(pool: map<JobId, JobInstance>, filter: set<JobStatus>) returns (out: seq<JobInstance>)
    requires Keyed(pool)
    ensures Enumerates(out, pool, filter)
  {
    out := [];
    var todo := pool.Keys;
    while todo != {}
      invariant todo <= pool.Keys
      invariant DrawnFrom(out, pool, filter) && DistinctIds(out)
      invariant IdsOf(out) == MatchingIds(pool, filter) - todo
      decreases |todo|
    {
      var id :| id in todo;
      if Matches(filter, pool[id]) {
        AppendNew(out, pool[id]);
        out := out + [pool[id]];
      }
      todo := todo - {id};
    }
  }

  function Truncate(s: seq<JobInstance>, limit: nat): seq<JobInstance> {
    s[..Min(limit, |s|)]
  }

  lemma TruncatedSortIsTopK(vals: seq<JobInstance>, pool: map<JobId, JobInstance>, filter: set<JobStatus>, key: SortKey, limit: nat)
    requires Enumerates(vals, pool, filter)
    ensures TopK(Truncate(NewestFirst(vals, key), limit), pool, filter, key, limit)
  {
    SortEnumerates(vals, pool, filter, key);
    FrontIsTopK(NewestFirst(vals, key), pool, filter, key, limit);
  }

  // ---------- gossip snapshots ----------

  /** What a snapshot carries of a record: logs are always cleared, artifacts by
      the periodic broadcast only (p2p/mod.rs). */
  function Strip(j: JobInstance, clearArtifacts: bool): JobInstance {
    j.(logs := [], artifacts := if clearArtifacts then [] else j.artifacts)
  }

  /** Nothing else of a record is lost. */
  lemma StripKeeps(j: JobInstance, clearArtifacts: bool)
    ensures var k := Strip(j, clearArtifacts);
            && k.logs == [] && k.artifacts == (if clearArtifacts then [] else j.artifacts)
            && k.(logs := j.logs, artifacts := j.artifacts) == j
  {
  }

  function StripAll(m: map<JobId, JobInstance>, clearArtifacts: bool): map<JobId, JobInstance> {
    map id | id in m :: Strip(m[id], clearArtifacts)
  }

  function StripList(s: seq<JobInstance>, clearArtifacts: bool): (t: seq<JobInstance>)
    ensures |t| == |s| && forall i :: 0 <= i < |s| ==> t[i] == Strip(s[i], clearArtifacts)
  {
    seq(|s|, i requires 0 <= i < |s| => Strip(s[i], clearArtifacts))
  }

  /** Newer by update, and among equal stamps by submission: a snapshot is sorted
      by submission first and then, stably, by update. */
  predicate Fresher(a: JobInstance, b: JobInstance) {
    a.updatedAt > b.updatedAt || (a.updatedAt == b.updatedAt && a.submittedAt > b.submittedAt)
  }

  ghost predicate FreshestFirst(s: seq<JobInstance>) {
    forall i, k :: 0 <= i < k < |s| ==> !Fresher(s[k], s[i])
  }

  ghost predicate NoneFresherOmitted(s: seq<JobInstance>, pool: map<JobId, JobInstance>) {
    forall id, i :: id in pool && id !in IdsOf(s) && 0 <= i < |s| ==> !Fresher(pool[id], s[i])
  }

  /** The `limit` freshest records of `m`, stripped. */
  ghost predicate IsSnapshot(out: seq<JobInstance>, m: map<JobId, JobInstance>, limit: nat, clearArtifacts: bool) {
    var pool := StripAll(m, clearArtifacts);
    && TopK(out, pool, ALL_STATUSES, ByUpdated, limit)
    && FreshestFirst(out)
    && NoneFresherOmitted(out, pool)
  }

  lemma StrippedOutranks(s: seq<JobInstance>, m: map<JobId, JobInstance>, clearArtifacts: bool)
    requires Keyed(m) && DrawnFrom(s, m, ALL_STATUSES) && Outranks(s, m, ALL_STATUSES, ByUpdated)
    requires FreshestFirst(s) && NoneFresherOmitted(s, m)
    ensures var t, n := StripList(s, clearArtifacts), StripAll(m, clearArtifacts);
            && IdsOf(t) == IdsOf(s) && MatchingIds(n, ALL_STATUSES) == m.Keys
            && Outranks(t, n, ALL_STATUSES, ByUpdated) && FreshestFirst(t) && NoneFresherOmitted(t, n)
  {
    var t, n := StripList(s, clearArtifacts), StripAll(m, clearArtifacts);
    AllMatch(m);
    AllMatch(n);
    assert n.Keys == m.Keys;
    assert IdsOf(t) == IdsOf(s) by {
      assert forall i :: 0 <= i < |s| ==> t[i].id == s[i].id;
    }
    forall id, i | id in m && id !in IdsOf(s) && 0 <= i < |s|
      ensures KeyOf(ByUpdated, t[i]) >= KeyOf(ByUpdated, n[id]) && !Fresher(n[id], t[i])
    {
      assert KeyOf(ByUpdated, s[i]) >= KeyOf(ByUpdated, m[id]);
      assert !Fresher(m[id], s[i]);
    }
  }

  lemma StrippedTopKIsSnapshot(s: seq<JobInstance>, m: map<JobId, JobInstance>, limit: nat, clearArtifacts: bool)
    requires Keyed(m) && TopK(s, m, ALL_STATUSES, ByUpdated, limit) && FreshestFirst(s) && NoneFresherOmitted(s, m)
    ensures IsSnapshot(StripList(s, clearArtifacts), m, limit, clearArtifacts)
  {
    StrippedOutranks(s, m, clearArtifacts);
    AllMatch(m);
  }

  // ---------- ties ----------

  lemma InsertFreshest(t: seq<JobInstance>, x: JobInstance, p: nat)
    requires FreshestFirst(t) && p <= |t|
    requires forall i :: 0 <= i < p ==> !Fresher(x, t[i])
    requires forall i :: p <= i < |t| ==> !Fresher(t[i], x)
    ensures FreshestFirst(t[..p] + [x] + t[p..])
  {
    var u := t[..p] + [x] + t[p..];
    forall i, k | 0 <= i < k < |u|
      ensures !Fresher(u[k], u[i])
    {
      if i != p && k != p {
        assert u[i] == t[if i < p then i else i - 1] && u[k] == t[if k < p then k else k - 1];
      }
    }
  }

  lemma PlaceFreshest(t: seq<JobInstance>, x: JobInstance)
    requires FreshestFirst(t) && Sorted(t, Rank(ByUpdated))
    requires forall i :: 0 <= i < |t| ==> t[i].submittedAt >= x.submittedAt
    ensures FreshestFirst(Place(t, x, Rank(ByUpdated)))
  {
    var p := Slot(t, x, Rank(ByUpdated));
    PlaceAtSlot(t, x, Rank(ByUpdated));
    forall i | 0 <= i < |t|
      ensures if i < p then !Fresher(x, t[i]) else !Fresher(t[i], x)
    {
      if i < p {
        assert Rank(ByUpdated)(t[i]) <= Rank(ByUpdated)(t[p - 1]);
      } else {
        assert Rank(ByUpdated)(x) < Rank(ByUpdated)(t[i]);
      }
    }
    InsertFreshest(t, x, p);
  }

  /** The stable sort by update leaves ties in their order by submission. */
  lemma {:induction false} TiesBySubmission(s: seq<JobInstance>)
    requires Descending(s, BySubmitted)
    ensures FreshestFirst(NewestFirst(s, ByUpdated))
  {
    if s != [] {
      var front, last := s[..|s| - 1], s[|s| - 1];
      TiesBySubmission(front);
      var t := NewestFirst(front, ByUpdated);
      StableSortSorted(front, Rank(ByUpdated));
      StableSortPermutes(front, Rank(ByUpdated));
      forall i | 0 <= i < |t|
        ensures t[i].submittedAt >= last.submittedAt
      {
        PermutationElements(front, t, t[i]);
        var k :| 0 <= k < |front| && front[k] == t[i];
        assert KeyOf(BySubmitted, s[k]) >= KeyOf(BySubmitted, last);
      }
      PlaceFreshest(t, last);
    }
  }

  lemma FrontIsFreshest(t: seq<JobInstance>, pool: map<JobId, JobInstance>, n: nat)
    requires Enumerates(t, pool, ALL_STATUSES) && FreshestFirst(t) && n <= |t|
    ensures FreshestFirst(t[..n]) && NoneFresherOmitted(t[..n], pool)
  {
    AllMatch(pool);
    forall id, i | id in pool && id !in IdsOf(t[..n]) && 0 <= i < n
      ensures !Fresher(pool[id], t[i])
    {
      var k := Omitted(t, n, id);
    }
  }

  /** Sorting a list that is in submission order by update, and cutting it, gives a snapshot. */
  lemma SortedIsSnapshot(vals: seq<JobInstance>, m: map<JobId, JobInstance>, limit: nat, clearArtifacts: bool)
    requires Keyed(m) && Enumerates(vals, m, ALL_STATUSES) && Descending(vals, BySubmitted)
    ensures IsSnapshot(StripList(Truncate(NewestFirst(vals, ByUpdated), limit), clearArtifacts), m, limit, clearArtifacts)
  {
    var t := NewestFirst(vals, ByUpdated);
    TruncatedSortIsTopK(vals, m, ALL_STATUSES, ByUpdated, limit);
    SortEnumerates(vals, m, ALL_STATUSES, ByUpdated);
    TiesBySubmission(vals);
    FrontIsFreshest(t, m, Min(limit, |t|));
    StrippedTopKIsSnapshot(Truncate(t, limit), m, limit, clearArtifacts);
  }

  lemma {:induction false} EnumerationExists(m: map<JobId, JobInstance>, ids: set<JobId>) returns (vals: seq<JobInstance>)
    requires Keyed(m) && ids <= m.Keys
    ensures DrawnFrom(vals, m, ALL_STATUSES) && DistinctIds(vals) && IdsOf(vals) == ids
  {
    if ids == {} {
      vals := [];
    } else {
      var id :| id in ids;
      vals := EnumerationExists(m, ids - {id});
      AppendNew(vals, m[id]);
      AllMatch(m);
      assert id in MatchingIds(m, ALL_STATUSES);
      vals := vals + [m[id]];
    }
  }

  /** A snapshot names every job of the store exactly when the store is no larger
      than the snapshot's limit. */
  lemma SnapshotComplete(out: seq<JobInstance>, m: map<JobId, JobInstance>, limit: nat, clearArtifacts: bool)
    requires IsSnapshot(out, m, limit, clearArtifacts)
    ensures IdsOf(out) <= m.Keys
    ensures IdsOf(out) == m.Keys <==> |m| <= limit
  {
    var n := StripAll(m, clearArtifacts);
    AllMatch(n);
    assert n.Keys == m.Keys;
    DistinctIdCount(out);
    assert IdsOf(out) <= m.Keys;
    SubsetSizes(IdsOf(out), m.Keys);
    assert |m.Keys| == |m|;
  }

  lemma SnapshotExists(m: map<JobId, JobInstance>, limit: nat, clear: bool) returns (jobs: seq<JobInstance>)
    requires Keyed(m)
    ensures IsSnapshot(jobs, m, limit, clear)
  {
    var vals := EnumerationExists(m, m.Keys);
    AllMatch(m);
    SortEnumerates(vals, m, ALL_STATUSES, BySubmitted);
    var sorted := NewestFirst(vals, BySubmitted);
    SortedIsSnapshot(sorted, m, limit, clear);
    jobs := StripList(Truncate(NewestFirst(sorted, ByUpdated), limit), clear);
  }

  // ---------- which jobs a snapshot can carry ----------

  ghost function FresherIds(m: map<JobId, JobInstance>, id: JobId): set<JobId>
    requires id in m
  {
    set other | other in m && Fresher(m[other], m[id])
  }

  lemma CarriedIsNotBuried(out: seq<JobInstance>, m: map<JobId, JobInstance>, limit: nat, clear: bool, id: JobId)
    requires IsSnapshot(out, m, limit, clear) && id in m && id in IdsOf(out)
    ensures |FresherIds(m, id)| < limit
  {
    var n := StripAll(m, clear);
    var i :| 0 <= i < |out| && out[i].id == id;
    assert n[id] == out[i];
    forall other | other in FresherIds(m, id)
      ensures other in IdsOf(out)
    {
      assert other in n && Fresher(n[other], out[i]);
    }
    assert FresherIds(m, id) + {id} <= IdsOf(out);
    SubsetSizes(FresherIds(m, id) + {id}, IdsOf(out));
    DistinctIdCount(out);
  }

  /** Nothing outside the front of a snapshot is ahead of any of its records. */
  lemma NotAhead(out: seq<JobInstance>, n: map<JobId, JobInstance>, other: JobId, i: nat)
    requires out != [] && i < |out| && other in n && other !in IdsOf(out[..|out| - 1])
    requires DrawnFrom(out, n, ALL_STATUSES) && MatchingIds(n, ALL_STATUSES) == n.Keys
    requires Outranks(out, n, ALL_STATUSES, ByUpdated) && Descending(out, ByUpdated)
    requires FreshestFirst(out) && NoneFresherOmitted(out, n)
    ensures KeyOf(ByUpdated, out[i]) >= KeyOf(ByUpdated, n[other]) && !Fresher(n[other], out[i])
  {
    if other in IdsOf(out) {
      var k := Omitted(out, |out| - 1, other);
      assert n[other] == out[k];
    }
  }

  lemma SameOrder(out: seq<JobInstance>, swapped: seq<JobInstance>)
    requires |swapped| == |out| && Descending(out, ByUpdated) && FreshestFirst(out)
    requires forall i :: 0 <= i < |out| ==>
               swapped[i].updatedAt == out[i].updatedAt && swapped[i].submittedAt == out[i].submittedAt
    ensures Descending(swapped, ByUpdated) && FreshestFirst(swapped)
  {
    forall i, k | 0 <= i < k < |swapped|
      ensures KeyOf(ByUpdated, swapped[i]) >= KeyOf(ByUpdated, swapped[k]) && !Fresher(swapped[k], swapped[i])
    {
      assert KeyOf(ByUpdated, out[i]) >= KeyOf(ByUpdated, out[k]) && !Fresher(out[k], out[i]);
    }
  }

  lemma SwappedOutranks(out: seq<JobInstance>, swapped: seq<JobInstance>, n: map<JobId, JobInstance>, id: JobId)
    requires |swapped| == |out| > 0 && DrawnFrom(out, n, ALL_STATUSES) && MatchingIds(n, ALL_STATUSES) == n.Keys
    requires IdsOf(swapped) == IdsOf(out[..|out| - 1]) + {id}
    requires forall i :: 0 <= i < |out| ==>
               swapped[i].updatedAt == out[i].updatedAt && swapped[i].submittedAt == out[i].submittedAt
    requires Outranks(out, n, ALL_STATUSES, ByUpdated) && Descending(out, ByUpdated)
    requires FreshestFirst(out) && NoneFresherOmitted(out, n)
    ensures Outranks(swapped, n, ALL_STATUSES, ByUpdated) && NoneFresherOmitted(swapped, n)
  {
    forall other, i | other in n && other !in IdsOf(swapped) && 0 <= i < |swapped|
      ensures KeyOf(ByUpdated, swapped[i]) >= KeyOf(ByUpdated, n[other]) && !Fresher(n[other], swapped[i])
    {
      NotAhead(out, n, other, i);
    }
  }

  lemma SwapKeys(out: seq<JobInstance>, x: JobInstance)
    requires out != [] && x.updatedAt == out[|out| - 1].updatedAt && x.submittedAt == out[|out| - 1].submittedAt
    ensures var swapped := out[..|out| - 1] + [x];
            && |swapped| == |out|
            && forall i :: 0 <= i < |out| ==>
                 swapped[i].updatedAt == out[i].updatedAt && swapped[i].submittedAt == out[i].submittedAt
  {
  }

  lemma SwapIds(out: seq<JobInstance>, n: map<JobId, JobInstance>, id: JobId)
    requires out != [] && DrawnFrom(out, n, ALL_STATUSES) && DistinctIds(out)
    requires id in n && n[id].id == id && id !in IdsOf(out) && MatchingIds(n, ALL_STATUSES) == n.Keys
    ensures var swapped := out[..|out| - 1] + [n[id]];
            && DrawnFrom(swapped, n, ALL_STATUSES) && DistinctIds(swapped)
            && IdsOf(swapped) == IdsOf(out[..|out| - 1]) + {id}
  {
    var front := out[..|out| - 1];
    assert id in MatchingIds(n, ALL_STATUSES);
    assert forall i :: 0 <= i < |front| ==> front[i] == out[i] && front[i].id in IdsOf(out);
    AppendNew(front, n[id]);
  }

  /** If the last record of a snapshot is as fresh as an omitted one, they can change places. */
  lemma SwapLast(out: seq<JobInstance>, m: map<JobId, JobInstance>, limit: nat, clear: bool, id: JobId)
    returns (swapped: seq<JobInstance>)
    requires IsSnapshot(out, m, limit, clear) && Keyed(m) && id in m && id !in IdsOf(out) && out != []
    requires !Fresher(out[|out| - 1], StripAll(m, clear)[id])
    ensures IsSnapshot(swapped, m, limit, clear) && id in IdsOf(swapped)
  {
    var n := StripAll(m, clear);
    swapped := out[..|out| - 1] + [n[id]];
    AllMatch(n);
    assert !Fresher(n[id], out[|out| - 1]);
    SwapKeys(out, n[id]);
    SwapIds(out, n, id);
    SwappedOutranks(out, swapped, n, id);
    SameOrder(out, swapped);
  }

  lemma LastFresherMeansAll(out: seq<JobInstance>, m: map<JobId, JobInstance>, clear: bool, id: JobId)
    requires DrawnFrom(out, StripAll(m, clear), ALL_STATUSES) && DistinctIds(out) && FreshestFirst(out) && out != []
    requires id in m && Fresher(out[|out| - 1], StripAll(m, clear)[id])
    ensures |out| <= |FresherIds(m, id)|
  {
    var n := StripAll(m, clear);
    forall i | 0 <= i < |out|
      ensures out[i].id in FresherIds(m, id)
    {
      assert n[out[i].id] == out[i];
      assert i < |out| - 1 ==> !Fresher(out[|out| - 1], out[i]);
    }
    SubsetSizes(IdsOf(out), FresherIds(m, id));
    DistinctIdCount(out);
  }

  lemma OmittedMeansFull(out: seq<JobInstance>, m: map<JobId, JobInstance>, limit: nat, clear: bool, id: JobId)
    requires IsSnapshot(out, m, limit, clear) && id in m && id !in IdsOf(out) && |FresherIds(m, id)| < limit
    ensures out != [] && !Fresher(out[|out| - 1], StripAll(m, clear)[id])
  {
    var n := StripAll(m, clear);
    SnapshotComplete(out, m, limit, clear);
    AllMatch(n);
    assert n.Keys == m.Keys && |n.Keys| == |m|;
    assert |out| == limit;
    if Fresher(out[|out| - 1], n[id]) {
      LastFresherMeansAll(out, m, clear, id);
    }
  }

  lemma SnapshotWith(m: map<JobId, JobInstance>, limit: nat, clear: bool, id: JobId) returns (jobs: seq<JobInstance>)
    requires Keyed(m) && id in m && |FresherIds(m, id)| < limit
    ensures IsSnapshot(jobs, m, limit, clear) && id in IdsOf(jobs)
  {
    jobs := SnapshotExists(m, limit, clear);
    if id !in IdsOf(jobs) {
      OmittedMeansFull(jobs, m, limit, clear, id);
      jobs := SwapLast(jobs, m, limit, clear, id);
    }
  }

  /** Some snapshot of the store carries a job exactly when fewer than `limit` jobs
      of the store are fresher. */
  lemma SnapshotCanCarry(m: map<JobId, JobInstance>, limit: nat, clear: bool, id: JobId)
    requires Keyed(m) && id in m
    ensures (exists out :: IsSnapshot(out, m, limit, clear) && id in IdsOf(out)) <==> |FresherIds(m, id)| < limit
  {
    if |FresherIds(m, id)| < limit {
      var out := SnapshotWith(m, limit, clear, id);
    } else {
      forall out | IsSnapshot(out, m, limit, clear)
        ensures id !in IdsOf(out)
      {
        if id in IdsOf(out) {
          CarriedIsNotBuried(out, m, limit, clear, id);
        }
      }
    }
  }

  /** A store with one job has one snapshot. */
  lemma OnlyRecord(jobs: seq<JobInstance>, m: map<JobId, JobInstance>, limit: nat, clear: bool, id: JobId)
    requires IsSnapshot(jobs, m, limit, clear) && m.Keys == {id} && limit > 0
    ensures jobs == [Strip(m[id], clear)]
  {
    var n := StripAll(m, clear);
    AllMatch(n);
    assert n.Keys == {id};
    assert jobs[0].id in n && n[jobs[0].id] == jobs[0];
  }
}
