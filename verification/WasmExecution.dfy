/** Staging a wasm job up to the runner (crates/agent/src/p2p/jobs_wasm.rs):
    where the bytes come from, the pinned digest, attachments, and the hand-off
    to the content store. The fetch and the peers answer arbitrarily. */
module WasmExecution {
  import opened Wrappers
  import opened ByteStrings
  import opened Jobs
  import opened GcMath
  import opened ContentAddressing

  /** What the peers answer to the n-th request of a job. */
  type Peers = (nat, Digest) -> Option<Bytes>

  datatype Failure =
    | NotAvailableViaP2P | NoP2PStorage | FetchFailed | DigestMismatch
    | AttachmentMissing(digest: Digest)
    | ShortDigest          // slicing the digest panics

  datatype Outcome = Rejected(reason: Failure) | Runs(path: BlobPath)

  predicate StartsWith(s: string, prefix: string) {
    prefix <= s
  }

  /** What a stage of the job leaves: the store as it is now, and a result. */
  datatype Staged<T> = Staged(store: Cas, result: Result<T, Failure>)

  // ---------- the module bytes ----------

  predicate FromStore(source: string, pinned: Option<Digest>) {
    pinned.Some? && (StartsWith(source, "cached:") || StartsWith(source, "cas:"))
  }

  function AskPeers(peers: Option<Peers>, n: nat, d: Digest): Result<Bytes, Failure> {
    match peers
    case None => Err(NoP2PStorage)
    case Some(ask) => match ask(n, d) case Some(b) => Ok(b) case None => Err(NotAvailableViaP2P)
  }

  function Resolve(c: Cas, sha: Bytes -> Digest, source: string, pinned: Option<Digest>,
                   fetched: Option<Bytes>, peers: Option<Peers>, now: nat): Staged<Bytes>
    requires forall b :: |sha(b)| >= 4
  {
    if FromStore(source, pinned) then
      var hex := pinned.value;
      if |hex| < 4 then Staged(c, Err(ShortDigest))
      else if PathFor(hex) in c.files then Staged(Touch(c, hex, now), Ok(c.files[PathFor(hex)]))
      else
        match AskPeers(peers, 0, hex)
        case Err(e) => Staged(c, Err(e))
        case Ok(b) => Staged(PutBytes(c, sha, b, now), Ok(b))
    else if fetched.Some? then Staged(c, Ok(fetched.value))
    else if pinned.Some? then Staged(c, AskPeers(peers, 0, pinned.value))
    else Staged(c, Err(FetchFailed))
  }

  /** Where the bytes come from: of a pinned job from the store, if its source says so
      and they are there; else by fetching, if its source does not say so; else from
      the peers, if it is pinned. Only what the peers gave for the store is put there. */
  lemma ResolveSources(c: Cas, sha: Bytes -> Digest, source: string, pinned: Option<Digest>,
                       fetched: Option<Bytes>, peers: Option<Peers>, now: nat)
    requires forall b :: |sha(b)| >= 4
    ensures var got := Resolve(c, sha, source, pinned, fetched, peers, now);
            var cas := pinned.Some? && ("cached:" <= source || "cas:" <= source);
            var stored := cas && |pinned.value| >= 4 && PathFor(pinned.value) in c.files;
            && (cas && |pinned.value| < 4 ==> got.result == Err(ShortDigest))
            && (stored ==> got.result == Ok(c.files[PathFor(pinned.value)]) && got.store.files == c.files)
            && (!cas && fetched.Some? ==> got.result == Ok(fetched.value))
            && (!cas && fetched.None? && pinned.None? ==> got.result == Err(FetchFailed))
            && ((if cas then |pinned.value| >= 4 && !stored else pinned.Some? && fetched.None?) ==>
                  got.result == if peers.None? then Err(NoP2PStorage)
                                else if peers.value(0, pinned.value).None? then Err(NotAvailableViaP2P)
                                else Ok(peers.value(0, pinned.value).value))
            && got.store == (if stored then Touch(c, pinned.value, now)
                             else if cas && got.result.Ok? then PutBytes(c, sha, got.result.value, now) else c)
  {
  }

  // ---------- attachments ----------

  function AttachmentBytes(c: Cas, hex: Digest, peers: Option<Peers>, n: nat): Result<Bytes, Failure> {
    if |hex| < 4 then Err(ShortDigest)
    else if PathFor(hex) in c.files then Ok(c.files[PathFor(hex)])
    else if AskPeers(peers, n, hex).Ok? then AskPeers(peers, n, hex)
    else Err(AttachmentMissing(hex))
  }

  type Host = map<string, Bytes>

  /** The store and the host files as the attachments leave them, and why they stopped. */
  datatype Attached = Attached(store: Cas, host: Host, failure: Option<Failure>)

  /** The attachments from the i-th on; `host` is the host file system. */
  function Attach(c: Cas, host: Host, items: seq<PreStageSpec>, i: nat, peers: Option<Peers>, now: nat): Attached
    requires i <= |items|
    decreases |items| - i
  {
    if i == |items| then Attached(c, host, None)
    else if !StartsWith(items[i].source, "cas:") then Attach(c, host, items, i + 1, peers, now)
    else
      var hex := items[i].source[4..];
      match AttachmentBytes(c, hex, peers, i + 1)
      case Err(e) => Attached(c, host, Some(e))
      case Ok(b) => Attach(Touch(c, hex, now), host[items[i].dest := b], items, i + 1, peers, now)
  }

  lemma {:induction false} AttachKeepsBlobs(
    c: Cas, sha: Bytes -> Digest, host: Host, items: seq<PreStageSpec>, i: nat, peers: Option<Peers>, now: nat)
    requires i <= |items| && Agrees(c, sha)
    ensures var s := Attach(c, host, items, i, peers, now).store;
            Agrees(s, sha) && s.files == c.files
    decreases |items| - i
  {
    if i < |items| {
      if !StartsWith(items[i].source, "cas:") {
        AttachKeepsBlobs(c, sha, host, items, i + 1, peers, now);
      } else {
        var hex := items[i].source[4..];
        var got := AttachmentBytes(c, hex, peers, i + 1);
        if got.Ok? {
          AttachKeepsBlobs(Touch(c, hex, now), sha, host[items[i].dest := got.value], items, i + 1, peers, now);
        }
      }
    }
  }

  /** The k-th item is no attachment, or its blob is in the store, or the peers have it. */
  predicate CanBeHad(c: Cas, items: seq<PreStageSpec>, k: nat, peers: Option<Peers>)
    requires k < |items|
  {
    "cas:" <= items[k].source ==>
      var hex := items[k].source[4..];
      |hex| >= 4 && (PathFor(hex) in c.files || (peers.Some? && peers.value(k + 1, hex).Some?))
  }

  /** The first item from the i-th on that cannot be had, or the end. */
  predicate Stops(c: Cas, items: seq<PreStageSpec>, i: nat, peers: Option<Peers>, n: nat) {
    && i <= n <= |items|
    && (forall k :: i <= k < n ==> CanBeHad(c, items, k, peers))
    && (n < |items| ==> !CanBeHad(c, items, n, peers))
  }

  lemma StopsAt(c: Cas, items: seq<PreStageSpec>, i: nat, peers: Option<Peers>) returns (n: nat)
    requires i <= |items|
    ensures Stops(c, items, i, peers, n)
    decreases |items| - i
  {
    if i < |items| && CanBeHad(c, items, i, peers) {
      n := StopsAt(c, items, i + 1, peers);
    } else {
      n := i;
    }
  }

  /** The k-th item is the last before the n-th that is written to its place. */
  predicate LastThere(items: seq<PreStageSpec>, k: nat, n: nat) {
    && k < n <= |items| && "cas:" <= items[k].source
    && forall later :: k < later < n && "cas:" <= items[later].source ==> items[later].dest != items[k].dest
  }

  predicate Same(host: Host, after: Host, path: string) {
    (path in after <==> path in host) && (path in host ==> after[path] == host[path])
  }

  /** `after` is `host` with the attachments from the i-th to the n-th written, each
      the stored blob of its digest or what the peers answered, and nothing else. */
  ghost predicate WrittenUpTo(c: Cas, host: Host, items: seq<PreStageSpec>, i: nat, n: nat, peers: Option<Peers>, after: Host)
    requires i <= n <= |items|
  {
    && (forall k :: i <= k < n && LastThere(items, k, n) ==>
          && items[k].dest in after
          && var hex := items[k].source[4..];
             && |hex| >= 4
             && if PathFor(hex) in c.files then after[items[k].dest] == c.files[PathFor(hex)]
                else peers.Some? && peers.value(k + 1, hex) == Some(after[items[k].dest]))
    && (forall path :: (forall k :: i <= k < n && "cas:" <= items[k].source ==> items[k].dest != path) ==>
          Same(host, after, path))
  }

  lemma WrittenFirst(c: Cas, host: Host, items: seq<PreStageSpec>, i: nat, n: nat, peers: Option<Peers>, b: Bytes, after: Host)
    requires i < n <= |items| && "cas:" <= items[i].source && |items[i].source[4..]| >= 4
    requires AttachmentBytes(c, items[i].source[4..], peers, i + 1) == Ok(b)
    requires WrittenUpTo(c, host[items[i].dest := b], items, i + 1, n, peers, after)
    ensures WrittenUpTo(c, host, items, i, n, peers, after)
  {
    var mid, dest := host[items[i].dest := b], items[i].dest;
    if LastThere(items, i, n) {
      assert Same(mid, after, dest);
    }
    forall path | forall k :: i <= k < n && "cas:" <= items[k].source ==> items[k].dest != path
      ensures Same(host, after, path)
    {
      assert Same(mid, after, path);
    }
  }

  lemma SameBlobs(c: Cas, d: Cas, host: Host, items: seq<PreStageSpec>, i: nat, n: nat, peers: Option<Peers>, after: Host)
    requires c.files == d.files && i <= n <= |items| && WrittenUpTo(c, host, items, i, n, peers, after)
    ensures WrittenUpTo(d, host, items, i, n, peers, after)
  {
  }

  lemma WrittenLater(c: Cas, host: Host, items: seq<PreStageSpec>, i: nat, n: nat, peers: Option<Peers>, after: Host)
    requires i < n <= |items| && !("cas:" <= items[i].source) && WrittenUpTo(c, host, items, i + 1, n, peers, after)
    ensures WrittenUpTo(c, host, items, i, n, peers, after)
  {
    forall path | forall k :: i <= k < n && "cas:" <= items[k].source ==> items[k].dest != path
      ensures Same(host, after, path)
    {
    }
  }

  lemma StopsFurtherOn(c: Cas, d: Cas, items: seq<PreStageSpec>, i: nat, peers: Option<Peers>, n: nat)
    requires Stops(c, items, i, peers, n) && i < n && d.files == c.files
    ensures Stops(d, items, i + 1, peers, n)
  {
    assert forall k :: i <= k < |items| ==> (CanBeHad(d, items, k, peers) <==> CanBeHad(c, items, k, peers));
  }

  lemma {:induction false} AttachStops(
    c: Cas, host: Host, items: seq<PreStageSpec>, i: nat, peers: Option<Peers>, now: nat, n: nat)
    requires Stops(c, items, i, peers, n)
    ensures var done := Attach(c, host, items, i, peers, now);
            && (done.failure.None? <==> n == |items|)
            && (n < |items| ==>
                  done.failure == Some(if |items[n].source| < 8 then ShortDigest else AttachmentMissing(items[n].source[4..])))
            && done.store.files == c.files
    decreases |items| - i
  {
    if i < n {
      assert CanBeHad(c, items, i, peers);
      if "cas:" <= items[i].source {
        var hex := items[i].source[4..];
        var c' := Touch(c, hex, now);
        StopsFurtherOn(c, c', items, i, peers, n);
        AttachStops(c', host[items[i].dest := AttachmentBytes(c, hex, peers, i + 1).value], items, i + 1, peers, now, n);
      } else {
        StopsFurtherOn(c, c, items, i, peers, n);
        AttachStops(c, host, items, i + 1, peers, now, n);
      }
    }
  }

  lemma {:induction false} AttachWrites(
    c: Cas, host: Host, items: seq<PreStageSpec>, i: nat, peers: Option<Peers>, now: nat, n: nat)
    requires Stops(c, items, i, peers, n)
    ensures WrittenUpTo(c, host, items, i, n, peers, Attach(c, host, items, i, peers, now).host)
    decreases |items| - i
  {
    if i < n {
      assert CanBeHad(c, items, i, peers);
      if "cas:" <= items[i].source {
        var hex := items[i].source[4..];
        var b := AttachmentBytes(c, hex, peers, i + 1).value;
        var c', host' := Touch(c, hex, now), host[items[i].dest := b];
        var after := Attach(c', host', items, i + 1, peers, now).host;
        StopsFurtherOn(c, c', items, i, peers, n);
        AttachWrites(c', host', items, i + 1, peers, now, n);
        SameBlobs(c', c, host', items, i + 1, n, peers, after);
        WrittenFirst(c, host, items, i, n, peers, b, after);
      } else {
        StopsFurtherOn(c, c, items, i, peers, n);
        AttachWrites(c, host, items, i + 1, peers, now, n);
        WrittenLater(c, host, items, i, n, peers, Attach(c, host, items, i + 1, peers, now).host);
      }
    }
  }

  /** The attachments are written in order up to the first that cannot be had, which
      decides the error; blobs stay as they are. */
  lemma AttachEffects(c: Cas, host: Host, items: seq<PreStageSpec>, i: nat, peers: Option<Peers>, now: nat, n: nat)
    requires Stops(c, items, i, peers, n)
    ensures var done := Attach(c, host, items, i, peers, now);
            && (done.failure.None? <==> n == |items|)
            && (n < |items| ==>
                  done.failure == Some(if |items[n].source| < 8 then ShortDigest else AttachmentMissing(items[n].source[4..])))
            && WrittenUpTo(c, host, items, i, n, peers, done.host)
            && done.store.files == c.files
  {
    AttachStops(c, host, items, i, peers, now, n);
    AttachWrites(c, host, items, i, peers, now, n);
  }

  /** Every stored attachment written is marked as used at that time, and no other entry changes. */
  lemma {:induction false} AttachTouches(
    c: Cas, host: Host, items: seq<PreStageSpec>, i: nat, peers: Option<Peers>, now: nat, n: nat, d: Digest)
    requires Stops(c, items, i, peers, n) && d in c.index && |d| >= 4 && PathFor(d) in c.files
    ensures var after := Attach(c, host, items, i, peers, now).store.index;
            && after.Keys == c.index.Keys
            && after[d] == if exists k :: i <= k < n && items[k].source == "cas:" + d then c.index[d].(lastAccessed := now)
                           else c.index[d]
    decreases |items| - i
  {
    if i < n {
      assert CanBeHad(c, items, i, peers);
      if "cas:" <= items[i].source {
        var hex := items[i].source[4..];
        assert items[i].source == "cas:" + hex;
        assert items[i].source == "cas:" + d ==> items[i].source[4..] == d;
        var c', host' := Touch(c, hex, now), host[items[i].dest := AttachmentBytes(c, hex, peers, i + 1).value];
        StopsFurtherOn(c, c', items, i, peers, n);
        AttachTouches(c', host', items, i + 1, peers, now, n, d);
      } else {
        AttachTouches(c, host, items, i + 1, peers, now, n, d);
      }
    }
  }

  /** Attachments are not checked against their digest: what is written hashes to
      the digest asked for exactly when the blob was already in the store or the
      peers answered truthfully. */
  lemma AttachmentHonest(c: Cas, sha: Bytes -> Digest, hex: Digest, peers: Option<Peers>, n: nat)
    requires Agrees(c, sha) && AttachmentBytes(c, hex, peers, n).Ok?
    ensures sha(AttachmentBytes(c, hex, peers, n).value) == hex
            <==> hex in c.index || (peers.Some? && peers.value(n, hex).Some? && sha(peers.value(n, hex).value) == hex)
  {
    if PathFor(hex) in c.files {
      assert PathFor(hex).name == hex;
    }
  }

  /** Which attachments are safe whatever the peers answer: exactly those whose blob is
      in the store, as long as there are bytes with another digest to lie with. */
  lemma AttachmentSafeIff(c: Cas, sha: Bytes -> Digest, hex: Digest, other: Bytes)
    requires Agrees(c, sha) && |hex| >= 4 && sha(other) != hex
    ensures (forall peers, n :: AttachmentBytes(c, hex, peers, n).Ok? ==> sha(AttachmentBytes(c, hex, peers, n).value) == hex)
            <==> hex in c.index
  {
    forall peers: Option<Peers>, n: nat | hex in c.index && AttachmentBytes(c, hex, peers, n).Ok?
      ensures sha(AttachmentBytes(c, hex, peers, n).value) == hex
    {
      AttachmentHonest(c, sha, hex, peers, n);
    }
    if hex !in c.index {
      var lying: Peers := (n, d) => Some(other);
      assert PathFor(hex).name == hex;
      assert AttachmentBytes(c, hex, Some(lying), 0) == Ok(other);
    }
  }

  /** Such a peer: the store lacks the blob, the peers answer with other bytes, and
      those are written for the job. */
  lemma DishonestAttachment()
    ensures var sha: Bytes -> Digest := b => if b == [] then "aaaa" else "bbbb";
            var item := PreStageSpec("cas:bbbb", "/work/input");
            var lying: Peers := (n, d) => Some([]);
            && LongDigests(sha) && Agrees(Cas(map[], map[]), sha)
            && Attach(Cas(map[], map[]), map[], [item], 0, Some(lying), 0).failure == None
            && Attach(Cas(map[], map[]), map[], [item], 0, Some(lying), 0).host == map[item.dest := []]
            && sha([]) != item.source[4..]
  {
    var item := PreStageSpec("cas:bbbb", "/work/input");
    var lying: Peers := (n, d) => Some([]);
    assert item.source == "cas:" + "bbbb";
    assert item.source[4..] == "bbbb";
    assert Attach(Cas(map[], map[]), map[item.dest := []], [item], 1, Some(lying), 0).host == map[item.dest := []];
  }

  // ---------- the whole staging ----------

  /** What a job leaves: the store, the host files, and what becomes of it. */
  datatype Executed = Executed(store: Cas, host: Host, outcome: Outcome)

  /** From the resolved bytes on: the pin, the attachments, the hand-off. */
  function Admit(c: Cas, sha: Bytes -> Digest, host: Host, bytes: Bytes, pinned: Option<Digest>,
                 items: seq<PreStageSpec>, peers: Option<Peers>, now: nat): Executed
    requires forall b :: |sha(b)| >= 4
  {
    if pinned.Some? && sha(bytes) != pinned.value then Executed(c, host, Rejected(DigestMismatch))
    else
      var att := Attach(c, host, items, 0, peers, now);
      match att.failure
      case Some(e) => Executed(att.store, att.host, Rejected(e))
      case None =>
        var put := PutBytes(att.store, sha, bytes, now);
        Executed(Touch(put, sha(bytes), now), att.host, Runs(PathFor(sha(bytes))))
  }

  function StageJob(c: Cas, sha: Bytes -> Digest, host: Host, source: string, pinned: Option<Digest>,
                    items: seq<PreStageSpec>, fetched: Option<Bytes>, peers: Option<Peers>, now: nat): Executed
    requires forall b :: |sha(b)| >= 4
  {
    var got := Resolve(c, sha, source, pinned, fetched, peers, now);
    match got.result
    case Err(e) => Executed(got.store, host, Rejected(e))
    case Ok(bytes) => Admit(got.store, sha, host, bytes, pinned, items, peers, now)
  }

  /** What the last put leaves at the path handed to the runner. */
  lemma HandedOff(c: Cas, sha: Bytes -> Digest, bytes: Bytes, now: nat)
    requires Agrees(c, sha) && LongDigests(sha)
    ensures var d := sha(bytes);
            var c' := Touch(PutBytes(c, sha, bytes, now), d, now);
            && Agrees(c', sha) && PathFor(d) in c'.files && sha(c'.files[PathFor(d)]) == d
            && (CollisionFree(sha) ==> c'.files[PathFor(d)] == bytes)
  {
    PutAgrees(c, sha, bytes, now);
    assert PathFor(sha(bytes)).name == sha(bytes);
  }

  lemma AdmitPinned(c: Cas, sha: Bytes -> Digest, host: Host, bytes: Bytes, pinned: Option<Digest>,
                    items: seq<PreStageSpec>, peers: Option<Peers>, now: nat)
    requires Agrees(c, sha) && LongDigests(sha)
    ensures var Executed(c', _, out) := Admit(c, sha, host, bytes, pinned, items, peers, now);
            && Agrees(c', sha)
            && (out.Runs? ==> out.path in c'.files)
            && (out.Runs? && pinned.Some? ==> sha(c'.files[out.path]) == pinned.value)
            && (out.Runs? && CollisionFree(sha) ==> c'.files[out.path] == bytes)
  {
    AttachKeepsBlobs(c, sha, host, items, 0, peers, now);
    HandedOff(Attach(c, host, items, 0, peers, now).store, sha, bytes, now);
  }

  lemma ResolveAgrees(c: Cas, sha: Bytes -> Digest, source: string, pinned: Option<Digest>,
                      fetched: Option<Bytes>, peers: Option<Peers>, now: nat)
    requires Agrees(c, sha) && LongDigests(sha)
    ensures Agrees(Resolve(c, sha, source, pinned, fetched, peers, now).store, sha)
  {
    if FromStore(source, pinned) && AskPeers(peers, 0, pinned.value).Ok? {
      PutAgrees(c, sha, AskPeers(peers, 0, pinned.value).value, now);
    }
  }

  /** Whichever way the bytes came, a pinned job is run from a file holding bytes
      that hash to the pin: a mismatch, an untruthful peer or a file already in
      place cannot change that. Where no two byte strings collide, the file holds
      exactly the bytes resolved. */
  lemma PinnedExecution(c: Cas, sha: Bytes -> Digest, host: Host, source: string, pinned: Option<Digest>,
                        items: seq<PreStageSpec>, fetched: Option<Bytes>, peers: Option<Peers>, now: nat)
    requires Agrees(c, sha) && LongDigests(sha)
    ensures var Executed(c', _, out) := StageJob(c, sha, host, source, pinned, items, fetched, peers, now);
            && Agrees(c', sha)
            && (out.Runs? ==> out.path in c'.files)
            && (out.Runs? && pinned.Some? ==> sha(c'.files[out.path]) == pinned.value)
            && (out.Runs? && CollisionFree(sha) ==>
                  Resolve(c, sha, source, pinned, fetched, peers, now).result == Ok(c'.files[out.path]))
  {
    var got := Resolve(c, sha, source, pinned, fetched, peers, now);
    ResolveAgrees(c, sha, source, pinned, fetched, peers, now);
    if got.result.Ok? {
      AdmitPinned(got.store, sha, host, got.result.value, pinned, items, peers, now);
    }
  }

  /** What becomes of a job: it runs, from the file named after its bytes' digest and
      with its attachments written, exactly when its bytes can be had, match the pin,
      and all its attachments can be had. */
  lemma StageOutcome(c: Cas, sha: Bytes -> Digest, host: Host, source: string, pinned: Option<Digest>,
                     items: seq<PreStageSpec>, fetched: Option<Bytes>, peers: Option<Peers>, now: nat)
    requires Agrees(c, sha) && LongDigests(sha)
    ensures var got := Resolve(c, sha, source, pinned, fetched, peers, now);
            var done := StageJob(c, sha, host, source, pinned, items, fetched, peers, now);
            var fits := got.result.Ok? && (pinned.Some? ==> sha(got.result.value) == pinned.value);
            && (done.outcome.Runs? <==> fits && forall k :: 0 <= k < |items| ==> CanBeHad(got.store, items, k, peers))
            && (done.outcome.Runs? ==> done.outcome.path == PathFor(sha(got.result.value)))
            && (done.outcome.Runs? ==> WrittenUpTo(got.store, host, items, 0, |items|, peers, done.host))
            && (got.result.Err? ==> done.outcome == Rejected(got.result.error))
            && (got.result.Ok? && !fits ==> done.outcome == Rejected(DigestMismatch))
            && (!fits ==> done.host == host)
  {
    var got := Resolve(c, sha, source, pinned, fetched, peers, now);
    var n := StopsAt(got.store, items, 0, peers);
    AttachEffects(got.store, host, items, 0, peers, now, n);
  }

  /** So a job pinned to a blob in the store runs whatever the fetch does, and whatever
      the peers do with attachments in the store. */
  lemma LocalBlobSuffices(c: Cas, sha: Bytes -> Digest, host: Host, source: string, hex: Digest, items: seq<PreStageSpec>,
                          fetched: Option<Bytes>, peers: Option<Peers>, now: nat)
    requires Agrees(c, sha) && LongDigests(sha) && hex in c.index && ("cached:" <= source || "cas:" <= source)
    requires forall k :: 0 <= k < |items| && "cas:" <= items[k].source ==> items[k].source[4..] in c.index
    ensures StageJob(c, sha, host, source, Some(hex), items, fetched, peers, now).outcome == Runs(PathFor(hex))
  {
    assert PathFor(hex).name == hex;
    StageOutcome(c, sha, host, source, Some(hex), items, fetched, peers, now);
    var got := Resolve(c, sha, source, Some(hex), fetched, peers, now);
    forall k | 0 <= k < |items|
      ensures CanBeHad(got.store, items, k, peers)
    {
      if "cas:" <= items[k].source {
        assert PathFor(items[k].source[4..]).name == items[k].source[4..];
      }
    }
  }

  class HostFiles {
    var files: map<string, Bytes>
    constructor ()
      ensures files == map[]
    {
      files := map[];
    }
  }

  method ResolveBytes(store: ContentStore, source: string, pinned: Option<Digest>,
                      fetched: Option<Bytes>, peers: Option<Peers>, now: nat) returns (r: Result<Bytes, Failure>)
    requires store.Valid()
    modifies store
    ensures store.Valid()
    ensures Staged(store.State(), r) == Resolve(old(store.State()), store.sha, source, pinned, fetched, peers, now)
  {
    if FromStore(source, pinned) {
      var hex := pinned.value;
      if |hex| < 4 {
        return Err(ShortDigest);
      }
      assert PathFor(hex).name == hex;
      var path := store.GetPath(hex, now);
      if path.Some? {
        return Ok(store.files[path.value]);
      }
      r := AskPeers(peers, 0, hex);
      if r.Ok? {
        var _ := store.PutBlob(r.value, now);
      }
    } else if fetched.Some? {
      r := Ok(fetched.value);
    } else if pinned.Some? {
      r := AskPeers(peers, 0, pinned.value);
    } else {
      r := Err(FetchFailed);
    }
  }

  method AttachAll(store: ContentStore, host: HostFiles, items: seq<PreStageSpec>, peers: Option<Peers>, now: nat)
    returns (failure: Option<Failure>)
    requires store.Valid()
    modifies store`index, host
    ensures store.Valid()
    ensures Attached(store.State(), host.files, failure) == Attach(old(store.State()), old(host.files), items, 0, peers, now)
  {
    var i := 0;
    while i < |items|
      invariant i <= |items| && store.Valid()
      invariant Attach(store.State(), host.files, items, i, peers, now)
                == Attach(old(store.State()), old(host.files), items, 0, peers, now)
    {
      var item := items[i];
      if StartsWith(item.source, "cas:") {
        var hex := item.source[4..];
        if |hex| < 4 {
          return Some(ShortDigest);
        }
        assert PathFor(hex).name == hex;
        var path := store.GetPath(hex, now);
        var bytes;
        if path.Some? {
          bytes := store.files[path.value];
        } else {
          var answer := AskPeers(peers, i + 1, hex);
          if answer.Err? {
            return Some(AttachmentMissing(hex));
          }
          bytes := answer.value;
        }
        host.files := host.files[item.dest := bytes];
      }
      i := i + 1;
    }
    return None;
  }

  method ExecuteWasmJob(store: ContentStore, host: HostFiles, source: string, pinned: Option<Digest>,
                        items: seq<PreStageSpec>, fetched: Option<Bytes>, peers: Option<Peers>, now: nat)
    returns (out: Outcome)
    requires store.Valid()
    modifies store, host
    ensures store.Valid()
    ensures Executed(store.State(), host.files, out)
            == StageJob(old(store.State()), store.sha, old(host.files), source, pinned, items, fetched, peers, now)
    ensures out.Runs? ==> out.path in store.files
    ensures out.Runs? ==>
              var got := Resolve(old(store.State()), store.sha, source, pinned, fetched, peers, now);
              WrittenUpTo(got.store, old(host.files), items, 0, |items|, peers, host.files)
    ensures out.Runs? && pinned.Some? ==> store.sha(store.files[out.path]) == pinned.value
  {
    PinnedExecution(store.State(), store.sha, host.files, source, pinned, items, fetched, peers, now);
    StageOutcome(store.State(), store.sha, host.files, source, pinned, items, fetched, peers, now);
    var bytes := ResolveBytes(store, source, pinned, fetched, peers, now);
    if bytes.Err? {
      return Rejected(bytes.error);
    }
    if pinned.Some? && store.sha(bytes.value) != pinned.value {
      return Rejected(DigestMismatch);
    }
    var failure := AttachAll(store, host, items, peers, now);
    if failure.Some? {
      return Rejected(failure.value);
    }
    var digest := store.PutBlob(bytes.value, now);
    assert PathFor(digest).name == digest;
    var path := store.GetPath(digest, now);
    return Runs(path.value);
  }
}
