/** What garbage collection of the content store means, independently of the
    loop that does it (crates/agent/src/storage/mod.rs, gc_to_target). */
module GcMath {
  import opened Text

  type Digest = string

  datatype IndexEntry = IndexEntry(sizeBytes: nat, lastAccessed: nat, pinned: bool)

  type Index = map<Digest, IndexEntry>

  /** Collection order: least recently used first, ties by digest. */
  ghost predicate Earlier(idx: Index, a: Digest, b: Digest)
    requires a in idx && b in idx
  {
    idx[a].lastAccessed < idx[b].lastAccessed || (idx[a].lastAccessed == idx[b].lastAccessed && Before(a, b))
  }

  lemma EarlierOrder(idx: Index, a: Digest, b: Digest, c: Digest)
    requires a in idx && b in idx && c in idx
    ensures !Earlier(idx, a, a)
    ensures a == b || Earlier(idx, a, b) || Earlier(idx, b, a)
    ensures !(Earlier(idx, a, b) && Earlier(idx, b, a))
    ensures Earlier(idx, a, b) && Earlier(idx, b, c) ==> Earlier(idx, a, c)
  {
    BeforeTotal(a, a);
    BeforeTotal(a, b);
    if Before(a, b) && Before(b, c) {
      BeforeTransitive(a, b, c);
    }
  }

  // ---------- sums of sizes ----------

  ghost function SizeOf(idx: Index, s: set<Digest>): nat
    requires s <= idx.Keys
  {
    if s == {} then 0
    else
      var d :| d in s;
      idx[d].sizeBytes + SizeOf(idx, s - {d})
  }

  lemma {:induction false} SizeSplit(idx: Index, s: set<Digest>, d: Digest)
    requires s <= idx.Keys && d in s
    ensures SizeOf(idx, s) == idx[d].sizeBytes + SizeOf(idx, s - {d})
  {
    var e :| e in s && SizeOf(idx, s) == idx[e].sizeBytes + SizeOf(idx, s - {e});
    if e != d {
      SizeSplit(idx, s - {e}, d);
      SizeSplit(idx, s - {d}, e);
      assert s - {e} - {d} == s - {d} - {e};
    }
  }

  lemma {:induction false} SizeDisjoint(idx: Index, a: set<Digest>, b: set<Digest>)
    requires a <= idx.Keys && b <= idx.Keys && a !! b
    ensures SizeOf(idx, a + b) == SizeOf(idx, a) + SizeOf(idx, b)
  {
    if a == {} {
      assert a + b == b;
    } else {
      var d :| d in a;
      SizeSplit(idx, a, d);
      SizeSplit(idx, a + b, d);
      SizeDisjoint(idx, a - {d}, b);
      assert a + b - {d} == a - {d} + b;
    }
  }

  lemma SizeMonotone(idx: Index, a: set<Digest>, b: set<Digest>)
    requires a <= b <= idx.Keys
    ensures SizeOf(idx, a) <= SizeOf(idx, b)
    ensures SizeOf(idx, b - a) == SizeOf(idx, b) - SizeOf(idx, a)
  {
    SizeDisjoint(idx, a, b - a);
    assert a + (b - a) == b;
  }

  lemma {:induction false} SizeOfPart(idx: Index, part: Index, s: set<Digest>)
    requires s <= part.Keys <= idx.Keys && forall d :: d in s ==> part[d] == idx[d]
    ensures SizeOf(part, s) == SizeOf(idx, s)
  {
    if s != {} {
      var d :| d in s;
      SizeSplit(idx, s, d);
      SizeSplit(part, s, d);
      SizeOfPart(idx, part, s - {d});
    }
  }

  lemma {:induction false} SizePositive(idx: Index, s: set<Digest>)
    requires s <= idx.Keys
    ensures SizeOf(idx, s) > 0 <==> exists d :: d in s && idx[d].sizeBytes > 0
  {
    if s != {} {
      var d :| d in s;
      SizeSplit(idx, s, d);
      SizePositive(idx, s - {d});
      assert forall e :: e in s <==> e == d || e in s - {d};
    }
  }

  ghost function Total(idx: Index): nat {
    SizeOf(idx, idx.Keys)
  }

  // ---------- what is collected ----------

  ghost function Unpinned(idx: Index): set<Digest> {
    set d | d in idx && !idx[d].pinned
  }

  /** The unpinned entries collected before `d` would be. */
  ghost function Ahead(idx: Index, d: Digest): set<Digest>
    requires d in idx
  {
    set e | e in idx && !idx[e].pinned && Earlier(idx, e, d)
  }

  /** An unpinned entry goes when, everything ahead of it gone, the total is still
      over the target. */
  ghost function Victims(idx: Index, target: nat): set<Digest> {
    set d | d in idx && !idx[d].pinned && Total(idx) - SizeOf(idx, Ahead(idx, d)) > target
  }

  ghost function Collected(idx: Index, target: nat): Index {
    idx - Victims(idx, target)
  }

  /** A set that collection in order could have removed. */
  ghost predicate Prefix(idx: Index, p: set<Digest>) {
    && p <= Unpinned(idx)
    && forall d, e :: d in p && e in Unpinned(idx) && Earlier(idx, e, d) ==> e in p
  }

  lemma AheadGrows(idx: Index, e: Digest, d: Digest)
    requires e in idx && d in idx && !idx[e].pinned && Earlier(idx, e, d)
    ensures Ahead(idx, e) + {e} <= Ahead(idx, d) && e !in Ahead(idx, e)
  {
    EarlierOrder(idx, e, e, e);
    forall x | x in Ahead(idx, e)
      ensures Earlier(idx, x, d)
    {
      EarlierOrder(idx, x, e, d);
    }
  }

  lemma VictimsPrefix(idx: Index, target: nat)
    ensures Prefix(idx, Victims(idx, target))
  {
    forall d, e | d in Victims(idx, target) && e in Unpinned(idx) && Earlier(idx, e, d)
      ensures e in Victims(idx, target)
    {
      AheadGrows(idx, e, d);
      SizeMonotone(idx, Ahead(idx, e), Ahead(idx, d));
    }
  }

  lemma FirstOf(idx: Index, p: set<Digest>) returns (d: Digest)
    requires p <= idx.Keys && p != {}
    ensures d in p && forall e :: e in p && e != d ==> Earlier(idx, d, e)
    decreases |p|
  {
    var x :| x in p;
    if p == {x} {
      d := x;
    } else {
      d := FirstOf(idx, p - {x});
      EarlierOrder(idx, x, d, d);
      if Earlier(idx, x, d) {
        forall e | e in p && e != x
          ensures Earlier(idx, x, e)
        {
          EarlierOrder(idx, x, d, e);
        }
        d := x;
      }
    }
  }

  /** Removing a prefix and then its next entry removes exactly what is ahead of
      that entry, and the entry. */
  lemma AheadOfNext(idx: Index, p: set<Digest>, d: Digest)
    requires Prefix(idx, p) && d in Unpinned(idx) && d !in p
    requires forall e :: e in Unpinned(idx) && e !in p && e != d ==> Earlier(idx, d, e)
    ensures Ahead(idx, d) == p
  {
    forall e | e in Unpinned(idx)
      ensures e in Ahead(idx, d) <==> e in p
    {
      EarlierOrder(idx, e, d, d);
      EarlierOrder(idx, d, e, e);
    }
  }

  ghost predicate GoodEnough(idx: Index, p: set<Digest>, target: nat)
    requires p <= idx.Keys
  {
    Total(idx) - SizeOf(idx, p) <= target || p == Unpinned(idx)
  }

  /** Collection reaches the target, or has nothing left to evict. */
  lemma VictimsSuffice(idx: Index, target: nat)
    ensures GoodEnough(idx, Victims(idx, target), target)
  {
    var v, rest := Victims(idx, target), Unpinned(idx) - Victims(idx, target);
    VictimsPrefix(idx, target);
    if rest == {} {
      assert v == Unpinned(idx) by {
        assert forall d :: d in Unpinned(idx) ==> d in v || d in rest;
      }
    } else {
      var d := FirstOf(idx, rest);
      AheadOfNext(idx, v, d);
    }
  }

  /** No shorter prefix would have done. */
  lemma VictimsLeast(idx: Index, target: nat, p: set<Digest>)
    requires Prefix(idx, p) && GoodEnough(idx, p, target)
    ensures Victims(idx, target) <= p
  {
    forall d | d in Victims(idx, target)
      ensures d in p
    {
      if d !in p {
        assert p <= Ahead(idx, d) by {
          forall e | e in p
            ensures Earlier(idx, e, d)
          {
            EarlierOrder(idx, e, d, d);
          }
        }
        SizeMonotone(idx, p, Ahead(idx, d));
      }
    }
  }

  /** What is left, in numbers. */
  lemma CollectedTotal(idx: Index, target: nat)
    ensures Total(Collected(idx, target)) == Total(idx) - SizeOf(idx, Victims(idx, target))
  {
    var v, rest := Victims(idx, target), Collected(idx, target);
    assert rest.Keys == idx.Keys - v;
    SizeMonotone(idx, v, idx.Keys);
    SizeOfPart(idx, rest, rest.Keys);
  }

  // ---------- composition ----------

  lemma VictimsAhead(idx: Index, t: nat, d: Digest)
    requires d in Unpinned(idx) && d !in Victims(idx, t)
    ensures Victims(idx, t) <= Ahead(idx, d)
  {
    VictimsPrefix(idx, t);
    forall e | e in Victims(idx, t)
      ensures e in Ahead(idx, d)
    {
      EarlierOrder(idx, e, d, d);
    }
  }

  lemma AheadAfter(idx: Index, t: nat, d: Digest)
    requires d in Collected(idx, t) && !idx[d].pinned
    ensures var rest := Collected(idx, t);
            Total(rest) - SizeOf(rest, Ahead(rest, d)) == Total(idx) - SizeOf(idx, Ahead(idx, d))
  {
    var v, rest := Victims(idx, t), Collected(idx, t);
    VictimsAhead(idx, t, d);
    CollectedTotal(idx, t);
    assert Ahead(rest, d) == Ahead(idx, d) - v;
    SizeMonotone(idx, v, Ahead(idx, d));
    SizeOfPart(idx, rest, Ahead(rest, d));
  }

  /** Collecting to a target and then to a smaller one is collecting to the
      smaller one straight away; in particular collecting twice is collecting once. */
  lemma CollectCompose(idx: Index, t1: nat, t2: nat)
    requires t1 >= t2
    ensures Collected(Collected(idx, t1), t2) == Collected(idx, t2)
  {
    var rest := Collected(idx, t1);
    assert Victims(idx, t1) <= Victims(idx, t2);
    forall d | d in rest
      ensures d in Victims(rest, t2) <==> d in Victims(idx, t2)
    {
      if !idx[d].pinned {
        AheadAfter(idx, t1, d);
      }
    }
    var a, b := Collected(rest, t2), Collected(idx, t2);
    assert a.Keys == b.Keys;
  }
}
