/** The content-addressed store of a node (crates/agent/src/storage/mod.rs):
    blob files and the index beside them. `sha` stands for sha256_hex; nothing
    is assumed of it but that a digest has at least four characters, except
    where a lemma asks that no two byte strings collide. */
module ContentAddressing {
  import opened Wrappers
  import opened Text
  import opened ByteStrings
  import opened Sorting
  import opened GcMath

  /** The path {a}/{b}/{name} below the blob directory. */
  datatype BlobPath = BlobPath(a: string, b: string, name: string)

  /** Slicing a shorter digest panics. */
  function PathFor(d: Digest): BlobPath
    requires |d| >= 4
  {
    BlobPath(d[..2], d[2..4], d)
  }

  /** A blob lies two directories deep, each named after two digits of its digest. */
  lemma PathShape(d: Digest)
    requires |d| >= 4
    ensures var p := PathFor(d); |p.a| == 2 && |p.b| == 2 && p.a + p.b == d[..4] && p.name == d
  {
  }

  /** The blob files and index.json. */
  datatype Cas = Cas(files: map<BlobPath, Bytes>, index: Index)

  function PutBytes(c: Cas, sha: Bytes -> Digest, bytes: Bytes, now: nat): Cas
    requires |sha(bytes)| >= 4
  {
    var d := sha(bytes);
    var p := PathFor(d);
    Cas(if p in c.files then c.files else c.files[p := bytes],
        c.index[d := IndexEntry(|bytes|, now, d in c.index && c.index[d].pinned)])
  }

  function Touch(c: Cas, d: Digest, now: nat): Cas
    requires |d| >= 4
  {
    if PathFor(d) in c.files && d in c.index
    then c.(index := c.index[d := c.index[d].(lastAccessed := now)])
    else c
  }

  function SetPin(c: Cas, d: Digest, value: bool): Cas {
    if d in c.index then c.(index := c.index[d := c.index[d].(pinned := value)]) else c
  }

  ghost function PathsOf(digests: set<Digest>): set<BlobPath>
    requires forall d :: d in digests ==> |d| >= 4
  {
    set d | d in digests :: PathFor(d)
  }

  ghost predicate LongKeys(idx: Index) {
    forall d :: d in idx ==> |d| >= 4
  }

  ghost function Gc(c: Cas, target: nat): Cas
    requires LongKeys(c.index)
  {
    var gone := Victims(c.index, target);
    Cas(c.files - PathsOf(gone), Collected(c.index, target))
  }

  // ---------- the store invariant ----------

  ghost predicate LongDigests(sha: Bytes -> Digest) {
    forall b :: |sha(b)| >= 4
  }

  ghost predicate CollisionFree(sha: Bytes -> Digest) {
    forall a, b :: sha(a) == sha(b) ==> a == b
  }

  /** Index and files name the same digests, and every file hashes to its name. */
  ghost predicate Agrees(c: Cas, sha: Bytes -> Digest) {
    && LongKeys(c.index)
    && (forall d :: d in c.index ==> PathFor(d) in c.files)
    && (forall p :: p in c.files ==> p.name in c.index && p == PathFor(p.name) && sha(c.files[p]) == p.name)
  }

  ghost predicate SizesAgree(c: Cas)
    requires LongKeys(c.index)
  {
    forall d :: d in c.index && PathFor(d) in c.files ==> c.index[d].sizeBytes == |c.files[PathFor(d)]|
  }

  lemma PutAgrees(c: Cas, sha: Bytes -> Digest, bytes: Bytes, now: nat)
    requires Agrees(c, sha) && LongDigests(sha)
    ensures Agrees(PutBytes(c, sha, bytes, now), sha)
    ensures PathFor(sha(bytes)) in PutBytes(c, sha, bytes, now).files
    ensures CollisionFree(sha) && SizesAgree(c) ==> SizesAgree(PutBytes(c, sha, bytes, now))
  {
    assert |sha(bytes)| >= 4;
  }

  lemma GcAgrees(c: Cas, sha: Bytes -> Digest, target: nat)
    requires Agrees(c, sha)
    ensures Agrees(Gc(c, target), sha)
    ensures SizesAgree(c) ==> SizesAgree(Gc(c, target))
  {
    var c', gone := Gc(c, target), Victims(c.index, target);
    forall d | d in c'.index
      ensures PathFor(d) in c'.files
    {
      assert PathFor(d).name == d;
    }
    forall p | p in c'.files
      ensures p.name in c'.index
    {
      assert p == PathFor(p.name);
    }
  }

  lemma CollectFrame(c: Cas, sha: Bytes -> Digest, target: nat)
    requires Agrees(c, sha)
    ensures var c' := Gc(c, target);
            && (forall d :: d in c'.index ==> d in c.index && c'.index[d] == c.index[d])
            && (forall p :: p in c'.files <==> p in c.files && p.name in c'.index)
            && (forall p :: p in c'.files ==> c'.files[p] == c.files[p])
  {
    var gone := Victims(c.index, target);
    forall p | p in c.files
      ensures p in PathsOf(gone) <==> p.name in gone
    {
      assert p == PathFor(p.name);
    }
  }

  // ---------- runs ----------

  datatype StoreOp =
    | Put(bytes: Bytes, now: nat)
    | Get(digest: Digest, now: nat)
    | Pin(digest: Digest, value: bool)
    | Collect(target: nat)

  ghost function Do(c: Cas, sha: Bytes -> Digest, op: StoreOp): Cas
    requires Agrees(c, sha) && LongDigests(sha)
    requires op.Get? ==> |op.digest| >= 4
  {
    match op
    case Put(bytes, now) => PutBytes(c, sha, bytes, now)
    case Get(d, now) => Touch(c, d, now)
    case Pin(d, value) => SetPin(c, d, value)
    case Collect(target) => Gc(c, target)
  }

  lemma DoAgrees(c: Cas, sha: Bytes -> Digest, op: StoreOp)
    requires Agrees(c, sha) && LongDigests(sha) && (op.Get? ==> |op.digest| >= 4)
    ensures Agrees(Do(c, sha, op), sha)
    ensures CollisionFree(sha) && SizesAgree(c) ==> SizesAgree(Do(c, sha, op))
  {
    match op {
      case Put(bytes, now) => PutAgrees(c, sha, bytes, now);
      case Collect(target) => GcAgrees(c, sha, target);
      case _ =>
    }
  }

  ghost predicate WellFormed(ops: seq<StoreOp>) {
    forall i :: 0 <= i < |ops| && ops[i].Get? ==> |ops[i].digest| >= 4
  }

  ghost function DoAll(c: Cas, sha: Bytes -> Digest, ops: seq<StoreOp>): (r: Cas)
    requires Agrees(c, sha) && LongDigests(sha) && WellFormed(ops)
    ensures Agrees(r, sha)
    ensures CollisionFree(sha) && SizesAgree(c) ==> SizesAgree(r)
    decreases |ops|
  {
    if ops == [] then c
    else
      DoAgrees(c, sha, ops[0]);
      DoAll(Do(c, sha, ops[0]), sha, ops[1..])
  }

  /** Each operation keeps to its own digest: putting and using a blob change no other
      entry and no pin, and a new blob is not pinned; pinning changes one pin and
      nothing else; collecting changes nothing of what it leaves. */
  lemma OperationFrame(c: Cas, sha: Bytes -> Digest, op: StoreOp)
    requires Agrees(c, sha) && LongDigests(sha) && (op.Get? ==> |op.digest| >= 4)
    ensures var c' := Do(c, sha, op);
            match op
            case Put(bytes, now) =>
              && c'.index.Keys == c.index.Keys + {sha(bytes)}
              && (forall d :: d in c.index && d != sha(bytes) ==> c'.index[d] == c.index[d])
              && c'.index[sha(bytes)] == IndexEntry(|bytes|, now, sha(bytes) in c.index && c.index[sha(bytes)].pinned)
              && (forall p :: p in c.files ==> p in c'.files && c'.files[p] == c.files[p])
              && (sha(bytes) !in c.index ==> PathFor(sha(bytes)) in c'.files && c'.files[PathFor(sha(bytes))] == bytes)
            case Get(digest, now) =>
              && c'.files == c.files && c'.index.Keys == c.index.Keys
              && (forall d :: d in c.index && d != digest ==> c'.index[d] == c.index[d])
              && (digest in c.index ==> c'.index[digest] == c.index[digest].(lastAccessed := now))
            case Pin(digest, value) =>
              && c'.files == c.files && c'.index.Keys == c.index.Keys
              && (forall d :: d in c.index && d != digest ==> c'.index[d] == c.index[d])
              && (digest in c.index ==>
                    c'.index[digest].pinned == value && c'.index[digest].sizeBytes == c.index[digest].sizeBytes
                    && c'.index[digest].lastAccessed == c.index[digest].lastAccessed)
            case Collect(_) =>
              && c'.index.Keys <= c.index.Keys
              && (forall d :: d in c'.index ==> c'.index[d] == c.index[d])
              && (forall p :: p in c'.files <==> p in c.files && p.name in c'.index)
              && (forall p :: p in c'.files ==> c'.files[p] == c.files[p])
  {
    assert op.Put? ==> |sha(op.bytes)| >= 4;
    if op.Get? && op.digest in c.index {
      assert PathFor(op.digest) in c.files;
    }
    if op.Collect? {
      CollectFrame(c, sha, op.target);
    }
  }

  ghost predicate PinnedWith(c: Cas, d: Digest, bytes: Bytes) {
    |d| >= 4 && d in c.index && c.index[d].pinned && PathFor(d) in c.files && c.files[PathFor(d)] == bytes
  }

  lemma StepKeepsPinned(c: Cas, sha: Bytes -> Digest, op: StoreOp, d: Digest, bytes: Bytes)
    requires Agrees(c, sha) && LongDigests(sha) && (op.Get? ==> |op.digest| >= 4)
    requires PinnedWith(c, d, bytes) && op != Pin(d, false)
    ensures PinnedWith(Do(c, sha, op), d, bytes)
  {
    if op.Put? {
      PutAgrees(c, sha, op.bytes, op.now);
    } else if op.Collect? {
      forall e | e in Victims(c.index, op.target)
        ensures PathFor(e) != PathFor(d)
      {
        assert PathFor(e).name != PathFor(d).name;
      }
    }
  }

  /** A pinned blob that is never unpinned keeps its file, its bytes and its pin
      through every run of puts, gets, pins and collections. */
  lemma {:induction false} PinnedStays(c: Cas, sha: Bytes -> Digest, ops: seq<StoreOp>, d: Digest, bytes: Bytes)
    requires Agrees(c, sha) && LongDigests(sha) && WellFormed(ops)
    requires PinnedWith(c, d, bytes) && Pin(d, false) !in ops
    ensures PinnedWith(DoAll(c, sha, ops), d, bytes)
    decreases |ops|
  {
    if ops != [] {
      StepKeepsPinned(c, sha, ops[0], d, bytes);
      DoAgrees(c, sha, ops[0]);
      PinnedStays(Do(c, sha, ops[0]), sha, ops[1..], d, bytes);
    }
  }

  lemma FirstThen(c: Cas, sha: Bytes -> Digest, op: StoreOp, ops: seq<StoreOp>)
    requires Agrees(c, sha) && LongDigests(sha) && WellFormed([op] + ops)
    ensures (op.Get? ==> |op.digest| >= 4) && Agrees(Do(c, sha, op), sha) && WellFormed(ops)
    ensures DoAll(c, sha, [op] + ops) == DoAll(Do(c, sha, op), sha, ops)
  {
    var all := [op] + ops;
    assert all[0] == op && all[1..] == ops;
    assert forall i :: 0 <= i < |ops| ==> ops[i] == all[i + 1];
    DoAgrees(c, sha, op);
  }

  /** Pinning takes hold: from then on, until it is unpinned, the blob keeps its file
      and its bytes, whatever is put, used, pinned or collected. */
  lemma PinTakesHold(c: Cas, sha: Bytes -> Digest, ops: seq<StoreOp>, d: Digest)
    requires Agrees(c, sha) && LongDigests(sha) && WellFormed(ops) && d in c.index && Pin(d, false) !in ops
    ensures WellFormed([Pin(d, true)] + ops)
    ensures PinnedWith(DoAll(c, sha, [Pin(d, true)] + ops), d, c.files[PathFor(d)])
  {
    var all := [Pin(d, true)] + ops;
    forall i | 0 <= i < |all| && all[i].Get?
      ensures |all[i].digest| >= 4
    {
      assert all[i] == ops[i - 1];
    }
    FirstThen(c, sha, Pin(d, true), ops);
    PinnedStays(Do(c, sha, Pin(d, true)), sha, ops, d, c.files[PathFor(d)]);
  }

  /** `e` is collected before `d` would be. */
  ghost predicate GoesBefore(idx: Index, e: Digest, d: Digest)
    requires e in idx && d in idx
  {
    e != d && !idx[e].pinned && Earlier(idx, e, d)
  }

  lemma UnpinThenCollect(c: Cas, sha: Bytes -> Digest, d: Digest)
    requires Agrees(c, sha) && LongDigests(sha)
    ensures WellFormed([Pin(d, false), Collect(0)]) && Agrees(SetPin(c, d, false), sha)
    ensures DoAll(c, sha, [Pin(d, false), Collect(0)]) == Gc(SetPin(c, d, false), 0)
  {
    var u := Do(c, sha, Pin(d, false));
    assert [Pin(d, false)] + [Collect(0)] == [Pin(d, false), Collect(0)] && [Collect(0)] + [] == [Collect(0)];
    FirstThen(c, sha, Pin(d, false), [Collect(0)]);
    FirstThen(u, sha, Collect(0), []);
  }

  lemma GoneIff(idx: Index, d: Digest)
    requires d in idx && !idx[d].pinned
    ensures d in Victims(idx, 0) <==> exists e :: e in idx && idx[e].sizeBytes > 0 && !GoesBefore(idx, e, d)
  {
    var rest := idx.Keys - Ahead(idx, d);
    SizeMonotone(idx, Ahead(idx, d), idx.Keys);
    SizePositive(idx, rest);
    EarlierOrder(idx, d, d, d);
    assert forall e :: e in rest <==> e in idx && !GoesBefore(idx, e, d);
  }

  lemma SameTurns(idx: Index, after: Index, d: Digest)
    requires d in idx && after == idx[d := idx[d].(pinned := false)]
    ensures forall e :: e in idx ==> (GoesBefore(after, e, d) <==> GoesBefore(idx, e, d))
    ensures forall e :: e in idx ==> after[e].sizeBytes == idx[e].sizeBytes
  {
  }

  /** Unpinning takes hold: a collection to nothing then removes the blob, unless there
      is no byte left by the time its turn comes. */
  lemma UnpinnedGoes(c: Cas, sha: Bytes -> Digest, d: Digest)
    requires Agrees(c, sha) && LongDigests(sha) && d in c.index
    ensures WellFormed([Pin(d, false), Collect(0)])
    ensures var t := DoAll(c, sha, [Pin(d, false), Collect(0)]);
            && (d in t.index <==> PathFor(d) in t.files)
            && (d !in t.index <==> exists e :: e in c.index && c.index[e].sizeBytes > 0 && !GoesBefore(c.index, e, d))
  {
    var u := SetPin(c, d, false);
    UnpinThenCollect(c, sha, d);
    GcAgrees(u, sha, 0);
    assert PathFor(d).name == d;
    SameTurns(c.index, u.index, d);
    GoneIff(u.index, d);
    assert d !in Gc(u, 0).index <==> d in Victims(u.index, 0);
    assert forall e :: e in u.index <==> e in c.index;
  }

  /** Files kept from one store are determined by the index kept. */
  lemma SameFiles(c: Cas, a: Cas, b: Cas, sha: Bytes -> Digest)
    requires Agrees(a, sha) && Agrees(b, sha) && a.index == b.index
    requires forall p :: p in a.files ==> p in c.files && a.files[p] == c.files[p]
    requires forall p :: p in b.files ==> p in c.files && b.files[p] == c.files[p]
    ensures a == b
  {
    assert forall p :: p in a.files ==> p.name in b.index && p in b.files;
    assert forall p :: p in b.files ==> p.name in a.index && p in a.files;
    assert a.files == b.files;
  }

  /** Collecting twice leaves the files and the index of the smaller target. */
  lemma GcCompose(c: Cas, sha: Bytes -> Digest, t1: nat, t2: nat)
    requires Agrees(c, sha) && t1 >= t2
    ensures Agrees(Gc(c, t1), sha)
    ensures Gc(Gc(c, t1), t2) == Gc(c, t2)
  {
    GcAgrees(c, sha, t1);
    GcAgrees(Gc(c, t1), sha, t2);
    GcAgrees(c, sha, t2);
    CollectCompose(c.index, t1, t2);
    SameFiles(c, Gc(Gc(c, t1), t2), Gc(c, t2), sha);
  }

  /** A blob read or written later than every other is the last to be collected. */
  lemma RecentlyUsedLast(c: Cas, sha: Bytes -> Digest, op: StoreOp, d: Digest, target: nat)
    requires Agrees(c, sha) && LongDigests(sha) && d in c.index
    requires (op.Get? && op.digest == d) || (op.Put? && sha(op.bytes) == d)
    requires forall e :: e in c.index && e != d ==> c.index[e].lastAccessed < op.now
    ensures var idx := Do(c, sha, op).index;
            d in Victims(idx, target) ==> Victims(idx, target) == Unpinned(idx)
  {
    DoAgrees(c, sha, op);
    var idx := Do(c, sha, op).index;
    VictimsPrefix(idx, target);
    assert PathFor(d).name == d;
    if d in Victims(idx, target) {
      forall e | e in Unpinned(idx)
        ensures e in Victims(idx, target)
      {
        assert e != d ==> Earlier(idx, e, d);
      }
    }
  }

  // ---------- the order in which entries are visited ----------

  type Item = (Digest, IndexEntry)

  function ByAccess(): Item -> int {
    (e: Item) => e.1.lastAccessed as int
  }

  ghost predicate ItemBefore(a: Item, b: Item) {
    a.1.lastAccessed < b.1.lastAccessed || (a.1.lastAccessed == b.1.lastAccessed && Before(a.0, b.0))
  }

  ghost predicate AscendingKeys(items: seq<Item>) {
    forall i, k :: 0 <= i < k < |items| ==> Before(items[i].0, items[k].0)
  }

  ghost predicate AscendingItems(items: seq<Item>) {
    forall i, k :: 0 <= i < k < |items| ==> ItemBefore(items[i], items[k])
  }

  lemma SlotBounds(t: seq<Item>, last: Item)
    requires Sorted(t, ByAccess())
    ensures var p := Slot(t, last, ByAccess());
            && (forall i :: 0 <= i < p ==> t[i].1.lastAccessed <= last.1.lastAccessed)
            && (forall i :: p <= i < |t| ==> last.1.lastAccessed < t[i].1.lastAccessed)
  {
    var p := Slot(t, last, ByAccess());
    forall i | 0 <= i < p
      ensures t[i].1.lastAccessed <= last.1.lastAccessed
    {
      assert ByAccess()(t[i]) <= ByAccess()(t[p - 1]);
    }
    forall i | p <= i < |t|
      ensures last.1.lastAccessed < t[i].1.lastAccessed
    {
      assert ByAccess()(last) < ByAccess()(t[i]);
    }
  }

  lemma InsertAscending(a: seq<Item>, x: Item, b: seq<Item>)
    requires AscendingItems(a + b)
    requires forall i :: 0 <= i < |a| ==> ItemBefore(a[i], x)
    requires forall i :: 0 <= i < |b| ==> ItemBefore(x, b[i])
    ensures AscendingItems(a + [x] + b)
  {
    var ab, u := a + b, a + [x] + b;
    forall i, k | 0 <= i < k < |u|
      ensures ItemBefore(u[i], u[k])
    {
      if i != |a| && k != |a| {
        assert u[i] == ab[if i < |a| then i else i - 1] && u[k] == ab[if k < |a| then k else k - 1];
      }
    }
  }

  lemma PlaceKeepsOrder(t: seq<Item>, last: Item)
    requires AscendingItems(t) && Sorted(t, ByAccess())
    requires forall i :: 0 <= i < |t| ==> Before(t[i].0, last.0)
    ensures AscendingItems(Place(t, last, ByAccess()))
  {
    var p := Slot(t, last, ByAccess());
    PlaceAtSlot(t, last, ByAccess());
    SlotBounds(t, last);
    assert t[..p] + t[p..] == t;
    InsertAscending(t[..p], last, t[p..]);
  }

  /** A stable sort by last access of a list in key order breaks ties by key. */
  lemma {:induction false} StableSortByAccess(items: seq<Item>)
    requires AscendingKeys(items)
    ensures AscendingItems(StableSort(items, ByAccess()))
  {
    if items != [] {
      var front, last := items[..|items| - 1], items[|items| - 1];
      StableSortByAccess(front);
      var t := StableSort(front, ByAccess());
      StableSortPermutes(front, ByAccess());
      StableSortSorted(front, ByAccess());
      forall i | 0 <= i < |t|
        ensures Before(t[i].0, last.0)
      {
        PermutationElements(front, t, t[i]);
      }
      PlaceKeepsOrder(t, last);
    }
  }

  /** `items` lists the entries of `idx` in collection order. */
  ghost predicate CollectionOrder(items: seq<Item>, idx: Index) {
    && AscendingItems(items)
    && (forall i :: 0 <= i < |items| ==> items[i].0 in idx && idx[items[i].0] == items[i].1)
    && (forall d :: d in idx ==> (d, idx[d]) in items)
  }

  ghost function UnpinnedOf(items: seq<Item>): set<Digest> {
    set i | 0 <= i < |items| && !items[i].1.pinned :: items[i].0
  }

  lemma UnpinnedOfStep(items: seq<Item>, i: nat)
    requires i < |items|
    ensures UnpinnedOf(items[..i + 1]) == UnpinnedOf(items[..i]) + if items[i].1.pinned then {} else {items[i].0}
  {
    assert forall k :: 0 <= k < i ==> items[..i + 1][k] == items[..i][k];
    assert items[..i + 1][i] == items[i];
  }

  /** What has been visited before an unpinned entry is what is ahead of it. */
  lemma VisitedIsAhead(items: seq<Item>, idx: Index, i: nat)
    requires CollectionOrder(items, idx) && i < |items|
    ensures UnpinnedOf(items[..i]) == Ahead(idx, items[i].0)
    ensures items[i].0 !in UnpinnedOf(items[..i])
  {
    var d := items[i].0;
    EarlierOrder(idx, d, d, d);
    forall e | e in Ahead(idx, d)
      ensures e in UnpinnedOf(items[..i])
    {
      var k :| 0 <= k < |items| && items[k] == (e, idx[e]);
      EarlierOrder(idx, e, d, d);
      assert k < i;
      assert items[..i][k] == items[k];
    }
  }

  lemma AllVisited(items: seq<Item>, idx: Index)
    requires CollectionOrder(items, idx)
    ensures UnpinnedOf(items) == Unpinned(idx)
  {
    forall d | d in Unpinned(idx)
      ensures d in UnpinnedOf(items)
    {
      var k :| 0 <= k < |items| && items[k] == (d, idx[d]);
    }
  }

  lemma LaterIsSpared(items: seq<Item>, idx: Index, i: nat, target: nat)
    requires CollectionOrder(items, idx) && i <= |items|
    requires UnpinnedOf(items[..i]) <= idx.Keys && Total(idx) - SizeOf(idx, UnpinnedOf(items[..i])) <= target
    ensures Victims(idx, target) <= UnpinnedOf(items[..i])
  {
    forall d | d in Victims(idx, target)
      ensures d in UnpinnedOf(items[..i])
    {
      var k :| 0 <= k < |items| && items[k] == (d, idx[d]);
      if k >= i {
        VisitedIsAhead(items, idx, k);
        assert UnpinnedOf(items[..i]) <= UnpinnedOf(items[..k]) by {
          assert forall n :: 0 <= n < i ==> items[..i][n] == items[..k][n];
        }
        SizeMonotone(idx, UnpinnedOf(items[..i]), UnpinnedOf(items[..k]));
      } else {
        assert items[..i][k] == items[k];
      }
    }
  }

  lemma LeastKey(s: set<Digest>) returns (d: Digest)
    requires s != {}
    ensures d in s && forall e :: e in s && e != d ==> Before(d, e)
    decreases |s|
  {
    d :| d in s;
    if s != {d} {
      var e := LeastKey(s - {d});
      BeforeTotal(d, e);
      if Before(e, d) {
        d := e;
      } else {
        forall x | x in s && x != d
          ensures Before(d, x)
        {
          if x != e {
            BeforeTransitive(d, e, x);
          }
        }
      }
    }
  }

  /** The entries of a BTreeMap, in key order. */
  method EntriesInKeyOrder(idx: Index) returns (items: seq<Item>)
    ensures AscendingKeys(items)
    ensures forall i :: 0 <= i < |items| ==> items[i].0 in idx && idx[items[i].0] == items[i].1
    ensures forall d :: d in idx ==> (d, idx[d]) in items
  {
    items := [];
    var todo := idx.Keys;
    while todo != {}
      invariant todo <= idx.Keys && AscendingKeys(items)
      invariant forall i :: 0 <= i < |items| ==> items[i].0 in idx && idx[items[i].0] == items[i].1
      invariant forall i, d :: 0 <= i < |items| && d in todo ==> Before(items[i].0, d)
      invariant forall d :: d in idx && d !in todo ==> (d, idx[d]) in items
      decreases |todo|
    {
      ghost var least := LeastKey(todo);
      var d :| d in todo && forall e :: e in todo && e != d ==> Before(d, e);
      items, todo := items + [(d, idx[d])], todo - {d};
    }
  }

  method VisitOrder(idx: Index) returns (items: seq<Item>)
    ensures CollectionOrder(items, idx)
  {
    var entries := EntriesInKeyOrder(idx);
    items := StableSort(entries, ByAccess());
    StableSortByAccess(entries);
    StableSortPermutes(entries, ByAccess());
    forall x: Item
      ensures x in items <==> x in entries
    {
      PermutationElements(entries, items, x);
    }
    assert forall i :: 0 <= i < |items| ==> items[i] in entries;
  }

  method SumSizes(items: seq<Item>, ghost idx: Index) returns (sum: nat)
    requires CollectionOrder(items, idx)
    ensures sum == Total(idx)
  {
    sum := 0;
    ghost var seen: set<Digest> := {};
    for i := 0 to |items|
      invariant seen == set k | 0 <= k < i :: items[k].0
      invariant seen <= idx.Keys && sum == SizeOf(idx, seen)
    {
      var d := items[i].0;
      EarlierOrder(idx, d, d, d);
      assert d !in seen;
      SizeSplit(idx, seen + {d}, d);
      assert seen + {d} - {d} == seen;
      sum := sum + items[i].1.sizeBytes;
      seen := seen + {d};
    }
    assert seen == idx.Keys by {
      forall d | d in idx
        ensures d in seen
      {
        var k :| 0 <= k < |items| && items[k] == (d, idx[d]);
      }
    }
  }

  function Without(c: Cas, d: Digest): Cas
    requires |d| >= 4
  {
    Cas(c.files - {PathFor(d)}, c.index - {d})
  }

  /** Of `c0`, exactly the entries `gone` have been evicted so far. */
  ghost predicate Evicted(c0: Cas, c: Cas, current: nat, gone: set<Digest>)
    requires LongKeys(c0.index)
  {
    && gone <= c0.index.Keys
    && c == Cas(c0.files - PathsOf(gone), c0.index - gone)
    && current == Total(c0.index) - SizeOf(c0.index, gone)
  }

  lemma EvictOne(c0: Cas, c: Cas, current: nat, gone: set<Digest>, d: Digest)
    requires LongKeys(c0.index) && Evicted(c0, c, current, gone) && d in c0.index && d !in gone
    ensures c0.index[d].sizeBytes <= current
    ensures |d| >= 4 && Evicted(c0, Without(c, d), current - c0.index[d].sizeBytes, gone + {d})
  {
    var idx := c0.index;
    SizeSplit(idx, gone + {d}, d);
    assert gone + {d} - {d} == gone;
    SizeMonotone(idx, gone + {d}, idx.Keys);
    assert PathsOf(gone + {d}) == PathsOf(gone) + {PathFor(d)};
    assert c0.files - PathsOf(gone) - {PathFor(d)} == c0.files - PathsOf(gone + {d});
    assert idx - gone - {d} == idx - (gone + {d});
  }

  /** The loop has visited the first `i` entries, evicting the unpinned ones. */
  ghost predicate Visited(items: seq<Item>, i: nat, c0: Cas, c: Cas, current: nat, target: nat)
    requires LongKeys(c0.index)
  {
    && i <= |items|
    && UnpinnedOf(items[..i]) <= Victims(c0.index, target)
    && Evicted(c0, c, current, UnpinnedOf(items[..i]))
  }

  lemma VisitPinned(items: seq<Item>, i: nat, c0: Cas, c: Cas, current: nat, target: nat)
    requires LongKeys(c0.index) && CollectionOrder(items, c0.index) && Visited(items, i, c0, c, current, target)
    requires i < |items| && items[i].1.pinned
    ensures Visited(items, i + 1, c0, c, current, target)
  {
    UnpinnedOfStep(items, i);
    assert UnpinnedOf(items[..i]) + {} == UnpinnedOf(items[..i]);
  }

  /** The running total equals what is left, so the subtraction cannot saturate. */
  lemma VisitUnpinned(items: seq<Item>, i: nat, c0: Cas, c: Cas, current: nat, target: nat)
    requires LongKeys(c0.index) && CollectionOrder(items, c0.index) && Visited(items, i, c0, c, current, target)
    requires i < |items| && !items[i].1.pinned && current > target
    ensures |items[i].0| >= 4 && items[i].1.sizeBytes <= current
    ensures Visited(items, i + 1, c0, Without(c, items[i].0), current - items[i].1.sizeBytes, target)
  {
    var d := items[i].0;
    UnpinnedOfStep(items, i);
    VisitedIsAhead(items, c0.index, i);
    EvictOne(c0, c, current, UnpinnedOf(items[..i]), d);
    assert d in Victims(c0.index, target);
  }

  lemma VisitNone(items: seq<Item>, c0: Cas, target: nat)
    requires LongKeys(c0.index) && CollectionOrder(items, c0.index)
    ensures Visited(items, 0, c0, c0, Total(c0.index), target)
  {
    assert UnpinnedOf(items[..0]) == {};
    assert PathsOf({}) == {};
    assert c0.files - {} == c0.files && c0.index - {} == c0.index;
  }

  lemma VisitingDone(items: seq<Item>, i: nat, c0: Cas, c: Cas, current: nat, target: nat)
    requires LongKeys(c0.index) && CollectionOrder(items, c0.index) && Visited(items, i, c0, c, current, target)
    requires i == |items| || current <= target
    ensures c == Gc(c0, target)
  {
    if i == |items| {
      AllVisited(items, c0.index);
      assert items[..i] == items;
    } else {
      LaterIsSpared(items, c0.index, i, target);
    }
    assert UnpinnedOf(items[..i]) == Victims(c0.index, target);
  }

  function SaturatingSub(a: nat, b: nat): nat {
    if b <= a then a - b else 0
  }

  /** The eviction loop from entry `i` on. */
  function Sweep(items: seq<Item>, i: nat, c: Cas, current: nat, target: nat): Cas
    requires i <= |items| && forall k :: 0 <= k < |items| ==> |items[k].0| >= 4
    decreases |items| - i
  {
    if i == |items| || current <= target then c
    else if items[i].1.pinned then Sweep(items, i + 1, c, current, target)
    else Sweep(items, i + 1, Without(c, items[i].0), SaturatingSub(current, items[i].1.sizeBytes), target)
  }

  lemma {:induction false} SweepIsGc(items: seq<Item>, i: nat, c0: Cas, c: Cas, current: nat, target: nat)
    requires LongKeys(c0.index) && CollectionOrder(items, c0.index) && Visited(items, i, c0, c, current, target)
    requires forall k :: 0 <= k < |items| ==> |items[k].0| >= 4
    ensures Sweep(items, i, c, current, target) == Gc(c0, target)
    decreases |items| - i
  {
    if i == |items| || current <= target {
      VisitingDone(items, i, c0, c, current, target);
    } else {
      if items[i].1.pinned {
        VisitPinned(items, i, c0, c, current, target);
        SweepIsGc(items, i + 1, c0, c, current, target);
      } else {
        VisitUnpinned(items, i, c0, c, current, target);
        SweepIsGc(items, i + 1, c0, Without(c, items[i].0), current - items[i].1.sizeBytes, target);
      }
    }
  }

  lemma SweepAll(items: seq<Item>, c: Cas, target: nat)
    requires LongKeys(c.index) && CollectionOrder(items, c.index)
    ensures forall k :: 0 <= k < |items| ==> |items[k].0| >= 4
    ensures Sweep(items, 0, c, Total(c.index), target) == Gc(c, target)
  {
    VisitNone(items, c, target);
    SweepIsGc(items, 0, c, c, Total(c.index), target);
  }

  // ---------- the store ----------

  class ContentStore {
    const sha: Bytes -> Digest
    var files: map<BlobPath, Bytes>
    var index: Index

    function State(): Cas
      reads this
    {
      Cas(files, index)
    }

    ghost predicate Valid()
      reads this
    {
      LongDigests(sha) && Agrees(State(), sha)
    }

    constructor (sha: Bytes -> Digest)
      requires LongDigests(sha)
      ensures Valid() && this.sha == sha && State() == Cas(map[], map[])
    {
      this.sha := sha;
      files, index := map[], map[];
    }

    method PutBlob(bytes: Bytes, now: nat) returns (digest: Digest)
      requires Valid()
      modifies this
      ensures Valid() && digest == sha(bytes)
      ensures State() == PutBytes(old(State()), sha, bytes, now)
    {
      PutAgrees(State(), sha, bytes, now);
      digest := sha(bytes);
      var path := PathFor(digest);
      if path !in files {
        files := files[path := bytes];
      }
      var entry := if digest in index then index[digest] else IndexEntry(0, 0, false);
      entry := entry.(sizeBytes := |bytes|, lastAccessed := now);
      index := index[digest := entry];
    }

    method GetPath(digest: Digest, now: nat) returns (path: Option<BlobPath>)
      requires Valid() && |digest| >= 4
      modifies this`index
      ensures Valid() && State() == Touch(old(State()), digest, now)
      ensures path == if digest in index then Some(PathFor(digest)) else None
      ensures path.Some? ==> path.value in files && sha(files[path.value]) == digest
    {
      var p := PathFor(digest);
      if p in files {
        assert p.name == digest;
        if digest in index {
          index := index[digest := index[digest].(lastAccessed := now)];
        }
        path := Some(p);
      } else {
        path := None;
      }
    }

    method PinDigest(digest: Digest, value: bool) returns (found: bool)
      requires Valid()
      modifies this`index
      ensures Valid() && State() == SetPin(old(State()), digest, value)
      ensures found <==> digest in old(index)
      ensures found ==> digest in index && index[digest] == old(index)[digest].(pinned := value)
    {
      found := digest in index;
      if found {
        index := index[digest := index[digest].(pinned := value)];
      }
    }

    method TotalSizeBytes() returns (sum: nat)
      requires Valid()
      ensures sum == Total(index)
    {
      var items := VisitOrder(index);
      sum := SumSizes(items, index);
    }

    /** Evicts exactly the victims of the target. The running total stays equal
        to what the index still holds, so the saturating subtraction is exact. */
    method GcToTarget(target: nat)
      requires Valid()
      modifies this`files, this`index
      ensures Valid() && State() == Gc(old(State()), target)
    {
      var items := VisitOrder(index);
      GcAgrees(State(), sha, target);
      EvictUntil(items, target);
    }

    /** The running total always equals what the index still holds, so that the
        saturating subtraction is exact. */
    method EvictUntil(items: seq<Item>, target: nat)
      requires LongKeys(index) && CollectionOrder(items, index)
      modifies this`files, this`index
      ensures State() == Gc(old(State()), target)
    {
      var idx := index;
      var current: nat := SumSizes(items, idx);
      var i := 0;
      SweepAll(items, State(), target);
      while i < |items| && current > target
        invariant i <= |items|
        invariant Sweep(items, i, Cas(files, idx), current, target) == Gc(old(State()), target)
      {
        if !items[i].1.pinned {
          files := files - {PathFor(items[i].0)};
          current := SaturatingSub(current, items[i].1.sizeBytes);
          idx := idx - {items[i].0};
        }
        i := i + 1;
      }
      index := idx;
    }
  }
}
