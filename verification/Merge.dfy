/** The algebra of gossip merging (job_manager.rs, sync_job and sync_jobs). */
module Merge {
  import opened Jobs
  import opened JobStore

  ghost predicate SameElements<T(!new)>(a: seq<T>, b: seq<T>) {
    forall x :: x in a <==> x in b
  }

  /** Two different records never carry the same id and the same stamp. */
  ghost predicate Consistent(pool: seq<JobInstance>) {
    forall a, b :: a in pool && b in pool && a.id == b.id && a.updatedAt == b.updatedAt ==> a == b
  }

  /** `m` holds, for each id occurring in `pool`, a newest record of `pool`. */
  ghost predicate Winners(m: map<JobId, JobInstance>, pool: seq<JobInstance>) {
    && Keyed(m)
    && (forall id :: id in m ==> m[id] in pool)
    && (forall j :: j in pool ==> j.id in m && j.updatedAt <= m[j.id].updatedAt)
  }

  /** `l` lists the records of `m`, in some order, perhaps repeating. */
  ghost predicate Lists(l: seq<JobInstance>, m: map<JobId, JobInstance>) {
    && Keyed(m)
    && (forall id :: id in m ==> m[id] in l)
    && (forall j :: j in l ==> j.id in m && m[j.id] == j)
  }

  lemma {:induction false} MergeWinners(m: map<JobId, JobInstance>, base: seq<JobInstance>, l: seq<JobInstance>)
    requires Winners(m, base)
    ensures Winners(MergeAll(m, l), base + l)
  {
    if l != [] {
      var front, last := l[..|l| - 1], l[|l| - 1];
      MergeWinners(m, base, front);
      assert l == front + [last];
    }
  }

  /** sync_jobs on any list leaves every id with the newest of the local and the
      delivered stamps, drops nothing and invents nothing. */
  lemma SyncTakesNewest(m: map<JobId, JobInstance>, local: seq<JobInstance>, l: seq<JobInstance>)
    requires Lists(local, m)
    ensures Winners(MergeAll(m, l), local + l)
  {
    MergeWinners(m, local, l);
  }

  lemma WinnersUnique(m: map<JobId, JobInstance>, n: map<JobId, JobInstance>, p: seq<JobInstance>, q: seq<JobInstance>)
    requires Winners(m, p) && Winners(n, q) && SameElements(p, q) && Consistent(p)
    ensures m == n
  {
    forall id | id in m
      ensures id in n && m[id] == n[id]
    {
      assert m[id] in q;
      assert n[id] in p;
    }
    assert m.Keys == n.Keys by {
      forall id | id in n
        ensures id in m
      {
        assert n[id] in p;
      }
    }
  }

  /** The order of a delivered list, and repetitions in it, do not matter. */
  lemma SyncOrderIndependent(m: map<JobId, JobInstance>, local: seq<JobInstance>, l: seq<JobInstance>, k: seq<JobInstance>)
    requires Lists(local, m) && SameElements(l, k) && Consistent(local + l)
    ensures MergeAll(m, l) == MergeAll(m, k)
  {
    MergeWinners(m, local, l);
    MergeWinners(m, local, k);
    WinnersUnique(MergeAll(m, l), MergeAll(m, k), local + l, local + k);
  }

  /** Without the hypothesis order does matter: the first of two records with
      equal stamps stays. */
  lemma SyncOrderMatters(a: JobInstance, b: JobInstance)
    requires a.id == b.id && a.updatedAt == b.updatedAt
    ensures MergeAll(map[], [a, b]) == MergeAll(map[], [b, a]) <==> a == b
  {
    assert [a, b][..1] == [a] && [b, a][..1] == [b] && [a][..0] == [] && [b][..0] == [];
    assert MergeAll(map[], [a]) == map[a.id := a] && MergeAll(map[], [b]) == map[b.id := b];
    assert MergeAll(map[], [a, b])[a.id] == a && MergeAll(map[], [b, a])[a.id] == b;
  }

  lemma {:induction false} DominatedMergeIsIdentity(m: map<JobId, JobInstance>, l: seq<JobInstance>)
    requires forall j :: j in l ==> j.id in m && j.updatedAt <= m[j.id].updatedAt
    ensures MergeAll(m, l) == m
  {
    if l != [] {
      DominatedMergeIsIdentity(m, l[..|l| - 1]);
    }
  }

  /** Merging a list again, or any part of it, changes nothing. */
  lemma SyncIdempotent(m: map<JobId, JobInstance>, local: seq<JobInstance>, l: seq<JobInstance>, again: seq<JobInstance>)
    requires Lists(local, m) && forall j :: j in again ==> j in l
    ensures MergeAll(MergeAll(m, l), again) == MergeAll(m, l)
  {
    MergeWinners(m, local, l);
    DominatedMergeIsIdentity(MergeAll(m, l), again);
  }

  lemma SyncCommutative(
    a: map<JobId, JobInstance>, la: seq<JobInstance>,
    b: map<JobId, JobInstance>, lb: seq<JobInstance>)
    requires Lists(la, a) && Lists(lb, b) && Consistent(la + lb)
    ensures MergeAll(a, lb) == MergeAll(b, la)
  {
    MergeWinners(a, la, lb);
    MergeWinners(b, lb, la);
    WinnersUnique(MergeAll(a, lb), MergeAll(b, la), la + lb, lb + la);
  }

  /** It makes no difference whether b and c are merged first and their result
      is passed on (as the list lbc), or each is merged directly. */
  lemma SyncAssociative(
    a: map<JobId, JobInstance>, la: seq<JobInstance>,
    b: map<JobId, JobInstance>, lb: seq<JobInstance>,
    lc: seq<JobInstance>, lbc: seq<JobInstance>)
    requires Lists(la, a) && Lists(lb, b) && Lists(lbc, MergeAll(b, lc))
    requires Consistent(la + lb + lc)
    ensures MergeAll(a, lbc) == MergeAll(MergeAll(a, lb), lc)
  {
    MergeWinners(a, la, lb);
    MergeWinners(MergeAll(a, lb), la + lb, lc);
    MergeWinners(b, lb, lc);
    var bc, left := MergeAll(b, lc), MergeAll(a, lbc);
    MergeWinners(a, la, lbc);
    var pool := la + lb + lc;
    forall j | j in pool
      ensures j.id in left && j.updatedAt <= left[j.id].updatedAt
    {
      if j !in la {
        assert j in lb + lc;
        assert bc[j.id] in lbc && bc[j.id] in la + lbc;
      } else {
        assert j in la + lbc;
      }
    }
    forall id | id in left
      ensures left[id] in pool
    {
      if left[id] !in la {
        assert left[id] in lbc;
        assert left[id] in lb + lc;
      }
    }
    assert Winners(left, pool);
    WinnersUnique(left, MergeAll(MergeAll(a, lb), lc), pool, pool);
  }
}
