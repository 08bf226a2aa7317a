/** Asset upload: the sender's split into messages (crates/agent/src/cmd/job.rs)
    and the receiver that puts chunks together (crates/agent/src/p2p/mod.rs).
    Payloads are shown decoded; only the length of their base64 form matters. */
module ChunkedUpload {
  import opened ByteStrings
  import opened GcMath
  import opened ContentAddressing

  const INLINE_MAX := 8 * 1024 * 1024
  const CHUNK_SIZE := 6 * 1024 * 1024
  const U32_SPAN := 0x1_0000_0000

  datatype Message =
    | StoragePut(digest: Digest, payload: Bytes)
    | StoragePutChunk(digest: Digest, index: nat, total: nat, payload: Bytes)

  // ---------- sending ----------

  /** A count in 32 bits wraps around. */
  function U32(n: nat): (r: nat)
    ensures r < U32_SPAN && (n < U32_SPAN ==> r == n)
  {
    n % U32_SPAN
  }

  lemma U32Step(n: nat)
    ensures U32(U32(n) + 1) == U32(n + 1)
  {
  }

  function Upper(i: nat, len: nat): nat {
    if (i + 1) * CHUNK_SIZE <= len then (i + 1) * CHUNK_SIZE else len
  }

  /** The i-th slice of `bytes.chunks(CHUNK_SIZE)`. */
  function Chunk(bytes: Bytes, i: nat): Bytes
    requires i * CHUNK_SIZE < |bytes|
  {
    bytes[i * CHUNK_SIZE..Upper(i, |bytes|)]
  }

  /** The number of slices. */
  function ChunkCount(len: nat): (n: nat)
    ensures n * CHUNK_SIZE >= len
    ensures n > 0 ==> (n - 1) * CHUNK_SIZE < len
  {
    (len + CHUNK_SIZE - 1) / CHUNK_SIZE
  }

  /** The count fits its u32 field; a larger one, and the indices, wrap around. */
  predicate Countable(bytes: Bytes) {
    ChunkCount(|bytes|) < U32_SPAN
  }

  function ChunkMessage(digest: Digest, bytes: Bytes, i: nat): Message
    requires i < ChunkCount(|bytes|)
  {
    StoragePutChunk(digest, U32(i), U32(ChunkCount(|bytes|)), Chunk(bytes, i))
  }

  function Upload(digest: Digest, bytes: Bytes): (msgs: seq<Message>) {
    if |bytes| <= INLINE_MAX then [StoragePut(digest, bytes)]
    else seq(ChunkCount(|bytes|), i requires 0 <= i < ChunkCount(|bytes|) => ChunkMessage(digest, bytes, i))
  }

  /** What is left of the blob after `n` chunks. */
  function From(bytes: Bytes, n: nat): Bytes {
    bytes[(if n * CHUNK_SIZE < |bytes| then n * CHUNK_SIZE else |bytes|)..]
  }

  lemma ChunkStep(bytes: Bytes, n: nat)
    requires From(bytes, n) != []
    ensures var rest := From(bytes, n);
            var size := if |rest| < CHUNK_SIZE then |rest| else CHUNK_SIZE;
            n < ChunkCount(|bytes|) && rest[..size] == Chunk(bytes, n) && rest[size..] == From(bytes, n + 1)
  {
  }

  method UploadAsset(digest: Digest, bytes: Bytes) returns (published: seq<Message>)
    ensures published == Upload(digest, bytes)
  {
    if |bytes| <= INLINE_MAX {
      return [StoragePut(digest, bytes)];
    }
    var total := U32((|bytes| + CHUNK_SIZE - 1) / CHUNK_SIZE);
    published := [];
    var idx: nat := 0;
    var rest := bytes;
    while rest != []
      invariant |published| <= ChunkCount(|bytes|) && idx == U32(|published|)
      invariant rest == From(bytes, |published|)
      invariant forall i :: 0 <= i < |published| ==> published[i] == ChunkMessage(digest, bytes, i)
      decreases |rest|
    {
      ChunkStep(bytes, |published|);
      U32Step(|published|);
      var size := if |rest| < CHUNK_SIZE then |rest| else CHUNK_SIZE;
      var chunk := rest[..size];
      published := published + [StoragePutChunk(digest, idx, total, chunk)];
      rest := rest[size..];
      idx := U32(idx + 1);
    }
  }

  function Flatten(parts: seq<Bytes>): Bytes {
    if parts == [] then [] else Flatten(parts[..|parts| - 1]) + parts[|parts| - 1]
  }

  function Chunks(bytes: Bytes): (parts: seq<Bytes>)
    ensures |parts| == ChunkCount(|bytes|)
  {
    seq(ChunkCount(|bytes|), i requires 0 <= i < ChunkCount(|bytes|) => Chunk(bytes, i))
  }

  /** All chunks are non-empty, all but the last are full. */
  lemma ChunkShapes(bytes: Bytes, i: nat)
    requires i < ChunkCount(|bytes|)
    ensures 0 < |Chunk(bytes, i)| <= 6291456
    ensures i + 1 < ChunkCount(|bytes|) ==> |Chunk(bytes, i)| == 6291456
  {
  }

  lemma {:induction false} FlattenPrefix(bytes: Bytes, n: nat)
    requires n <= ChunkCount(|bytes|)
    ensures Flatten(Chunks(bytes)[..n]) == bytes[..if n * CHUNK_SIZE <= |bytes| then n * CHUNK_SIZE else |bytes|]
  {
    if n > 0 {
      var parts := Chunks(bytes);
      FlattenPrefix(bytes, n - 1);
      assert parts[..n][..n - 1] == parts[..n - 1];
    }
  }

  /** Joined by index the chunks are the blob. */
  lemma ChunksJoin(bytes: Bytes)
    ensures Flatten(Chunks(bytes)) == bytes
  {
    FlattenPrefix(bytes, ChunkCount(|bytes|));
    assert Chunks(bytes)[..ChunkCount(|bytes|)] == Chunks(bytes);
  }

  // ---------- payload sizes ----------

  /** Length of the base64 form (section 4 of RFC 4648). */
  function Base64Length(n: nat): (len: nat)
    ensures len % 4 == 0 && 4 * n <= 3 * len < 4 * n + 12
  {
    (n + 2) / 3 * 4
  }

  /** Every chunk payload fits a gossip message; an inline payload does exactly for
      blobs of at most 7864320 bytes, so that the inline limit is too high. */
  lemma PayloadSizes(digest: Digest, bytes: Bytes)
    ensures |bytes| > 8388608 ==>
              forall m :: m in Upload(digest, bytes) ==> m.StoragePutChunk? && Base64Length(|m.payload|) < 10485760
    ensures |bytes| <= 8388608 ==>
              Upload(digest, bytes) == [StoragePut(digest, bytes)] &&
              (Base64Length(|bytes|) <= 10485760 <==> |bytes| <= 7864320)
  {
    var msgs := Upload(digest, bytes);
    if |bytes| > INLINE_MAX {
      forall m | m in msgs
        ensures m.StoragePutChunk? && Base64Length(|m.payload|) < 10485760
      {
        var i :| 0 <= i < |msgs| && msgs[i] == m;
        ChunkShapes(bytes, i);
      }
    }
  }

  // ---------- receiving ----------

  type Buffers = map<Digest, seq<Bytes>>

  function Empty(n: nat): (s: seq<Bytes>)
    ensures |s| == n && forall i :: 0 <= i < n ==> s[i] == []
  {
    seq(n, i => [])
  }

  predicate Complete(buf: seq<Bytes>) {
    forall i :: 0 <= i < |buf| ==> buf[i] != []
  }

  /** The buffer once a chunk is put in its place. */
  function Filled(m: Buffers, d: Digest, index: nat, total: nat, payload: Bytes): seq<Bytes> {
    var buf := if d in m then m[d] else Empty(total);
    if index < |buf| then buf[index := payload] else buf
  }

  /** What has been received: the open buffers, and every blob completed, in order. */
  datatype Received = Received(buffers: Buffers, blobs: seq<(Digest, Bytes)>)

  function Accept(r: Received, msg: Message): Received {
    match msg
    case StoragePut(d, payload) => r.(blobs := r.blobs + [(d, payload)])
    case StoragePutChunk(d, index, total, payload) =>
      var buf := Filled(r.buffers, d, index, total, payload);
      if Complete(buf) then Received(r.buffers - {d}, r.blobs + [(d, Flatten(buf))])
      else r.(buffers := r.buffers[d := buf])
  }

  /** What a chunk does, whoever sent it: it takes its place in its digest's buffer,
      whose length the first chunk has fixed, and is ignored if it has none; the
      buffer goes when it is complete, and no other is touched. */
  lemma ChunkMeans(r: Received, d: Digest, index: nat, total: nat, payload: Bytes)
    ensures var r' := Accept(r, StoragePutChunk(d, index, total, payload));
            var slots := if d in r.buffers then r.buffers[d] else Empty(total);
            && (forall e :: e in r.buffers && e != d ==> e in r'.buffers && r'.buffers[e] == r.buffers[e])
            && r'.buffers.Keys <= r.buffers.Keys + {d}
            && (d in r'.buffers ==>
                  && |r'.buffers[d]| == |slots| && r'.blobs == r.blobs && !Complete(r'.buffers[d])
                  && forall k :: 0 <= k < |slots| ==> r'.buffers[d][k] == if k == index then payload else slots[k])
            && (d !in r'.buffers ==>
                  && |r'.blobs| == |r.blobs| + 1 && r'.blobs[..|r.blobs|] == r.blobs && r'.blobs[|r.blobs|].0 == d
                  && (forall k :: 0 <= k < |slots| && k != index ==> slots[k] != []) && (index < |slots| ==> payload != []))
  {
    var r' := Accept(r, StoragePutChunk(d, index, total, payload));
    var buf := Filled(r.buffers, d, index, total, payload);
    var slots := if d in r.buffers then r.buffers[d] else Empty(total);
    forall k | 0 <= k < |slots|
      ensures buf[k] == if k == index then payload else slots[k]
    {
    }
    if Complete(buf) {
      forall k | 0 <= k < |slots|
        ensures (if k == index then payload else slots[k]) != []
      {
        assert buf[k] != [];
      }
      assert index < |buf| ==> buf[index] == payload && buf[index] != [];
    }
  }

  function AcceptAll(r: Received, msgs: seq<Message>): Received {
    if msgs == [] then r else Accept(AcceptAll(r, msgs[..|msgs| - 1]), msgs[|msgs| - 1])
  }

  method JoinParts(buf: seq<Bytes>) returns (full: Bytes)
    ensures full == Flatten(buf)
  {
    full := [];
    for i := 0 to |buf|
      invariant full == Flatten(buf[..i])
    {
      assert buf[..i + 1][..i] == buf[..i];
      full := full + buf[i];
    }
    assert buf[..|buf|] == buf;
  }

  /** The handler of one message: a completed blob whose digest is the announced
      one goes into the content store, any other is dropped. */
  class Receiver {
    var buffers: Buffers

    constructor ()
      ensures buffers == map[]
    {
      buffers := map[];
    }

    method OnMessage(msg: Message, store: ContentStore, now: nat) returns (stored: bool)
      requires store.Valid()
      modifies this, store
      ensures store.Valid()
      ensures var r := Accept(Received(old(buffers), []), msg);
              && buffers == r.buffers
              && (stored <==> r.blobs != [] && store.sha(r.blobs[0].1) == msg.digest)
              && store.State() == if stored then PutBytes(old(store.State()), store.sha, r.blobs[0].1, now)
                                  else old(store.State())
    {
      var full;
      match msg {
        case StoragePut(d, payload) =>
          full := payload;
        case StoragePutChunk(d, index, total, payload) =>
          var buf := if d in buffers then buffers[d] else Empty(total);
          if index < |buf| {
            buf := buf[index := payload];
          }
          if !Complete(buf) {
            buffers := buffers[d := buf];
            return false;
          }
          full := JoinParts(buf);
          buffers := buffers - {d};
      }
      stored := store.sha(full) == msg.digest;
      if stored {
        var _ := store.PutBlob(full, now);
      }
    }
  }

  // ---------- any order, any repetition ----------

  /** Messages for `d`, if any, are chunks of `bytes`. */
  ghost predicate Genuine(msgs: seq<Message>, d: Digest, bytes: Bytes) {
    forall i :: 0 <= i < |msgs| && msgs[i].digest == d ==>
      exists k :: 0 <= k < ChunkCount(|bytes|) && msgs[i] == ChunkMessage(d, bytes, k)
  }

  ghost function Arrived(msgs: seq<Message>, d: Digest): set<nat> {
    set i | 0 <= i < |msgs| && msgs[i].StoragePutChunk? && msgs[i].digest == d :: msgs[i].index
  }

  ghost predicate AllArrived(msgs: seq<Message>, d: Digest, bytes: Bytes) {
    forall k :: 0 <= k < ChunkCount(|bytes|) ==> k in Arrived(msgs, d)
  }

  /** The blobs completed under `d`. */
  function BlobsOf(blobs: seq<(Digest, Bytes)>, d: Digest): seq<Bytes> {
    if blobs == [] then []
    else
      var rest, last := BlobsOf(blobs[..|blobs| - 1], d), blobs[|blobs| - 1];
      if last.0 == d then rest + [last.1] else rest
  }

  /** Every slot of the buffer for `d` is empty or holds its chunk. */
  ghost predicate Consistent(r: Received, d: Digest, bytes: Bytes) {
    d in r.buffers ==>
      var buf := r.buffers[d];
      && |buf| == ChunkCount(|bytes|) && !Complete(buf)
      && forall k :: 0 <= k < |buf| ==> buf[k] == [] || buf[k] == Chunk(bytes, k)
  }

  ghost predicate Slots(r: Received, d: Digest, arrived: set<nat>) {
    if d in r.buffers then forall k :: 0 <= k < |r.buffers[d]| ==> (r.buffers[d][k] != [] <==> k in arrived)
    else arrived == {}
  }

  /** Up to the first completion the buffer holds exactly what has arrived;
      a completion happens only when everything has. */
  ghost predicate Progress(r: Received, msgs: seq<Message>, d: Digest, bytes: Bytes) {
    && Consistent(r, d, bytes)
    && (forall i :: 0 <= i < |BlobsOf(r.blobs, d)| ==> BlobsOf(r.blobs, d)[i] == bytes)
    && (BlobsOf(r.blobs, d) == [] ==> Slots(r, d, Arrived(msgs, d)) && !AllArrived(msgs, d, bytes))
    && (BlobsOf(r.blobs, d) != [] ==> AllArrived(msgs, d, bytes))
  }

  lemma ArrivedStep(msgs: seq<Message>, m: Message, d: Digest)
    ensures Arrived(msgs + [m], d) ==
            Arrived(msgs, d) + if m.StoragePutChunk? && m.digest == d then {m.index} else {}
  {
    var all := msgs + [m];
    assert all[|msgs|] == m;
    assert forall i :: 0 <= i < |msgs| ==> all[i] == msgs[i];
  }

  lemma BlobsStep(blobs: seq<(Digest, Bytes)>, b: (Digest, Bytes), d: Digest)
    ensures BlobsOf(blobs + [b], d) == if b.0 == d then BlobsOf(blobs, d) + [b.1] else BlobsOf(blobs, d)
  {
    assert (blobs + [b])[..|blobs|] == blobs;
  }

  lemma OtherMessage(r: Received, msgs: seq<Message>, m: Message, d: Digest, bytes: Bytes)
    requires Progress(r, msgs, d, bytes) && m.digest != d
    ensures Progress(Accept(r, m), msgs + [m], d, bytes)
  {
    ArrivedStep(msgs, m, d);
    var r' := Accept(r, m);
    if r'.blobs != r.blobs {
      BlobsStep(r.blobs, r'.blobs[|r.blobs|], d);
      assert r'.blobs == r.blobs + [r'.blobs[|r.blobs|]];
    }
  }

  /** The buffer after one of the blob's own chunks. */
  lemma FilledSlots(r: Received, arrived: set<nat>, k: nat, d: Digest, bytes: Bytes)
    requires Consistent(r, d, bytes) && k < ChunkCount(|bytes|)
    ensures var buf := Filled(r.buffers, d, k, ChunkCount(|bytes|), Chunk(bytes, k));
            && |buf| == ChunkCount(|bytes|)
            && (forall i :: 0 <= i < |buf| ==> buf[i] == [] || buf[i] == Chunk(bytes, i))
            && (Slots(r, d, arrived) ==> forall i :: 0 <= i < |buf| ==> (buf[i] != [] <==> i in arrived + {k}))
  {
    ChunkShapes(bytes, k);
  }

  lemma CompleteIsBlob(buf: seq<Bytes>, bytes: Bytes)
    requires |buf| == ChunkCount(|bytes|) && Complete(buf)
    requires forall i :: 0 <= i < |buf| ==> buf[i] == [] || buf[i] == Chunk(bytes, i)
    ensures Flatten(buf) == bytes
  {
    assert buf == Chunks(bytes);
    ChunksJoin(bytes);
  }

  lemma Completed(r: Received, msgs: seq<Message>, d: Digest, bytes: Bytes, buf: seq<Bytes>)
    requires |buf| == ChunkCount(|bytes|) && Complete(buf)
    requires forall i :: 0 <= i < |BlobsOf(r.blobs, d)| ==> BlobsOf(r.blobs, d)[i] == bytes
    requires BlobsOf(r.blobs, d) == [] ==> forall i :: 0 <= i < |buf| ==> (buf[i] != [] <==> i in Arrived(msgs, d))
    requires BlobsOf(r.blobs, d) != [] ==> AllArrived(msgs, d, bytes)
    ensures Progress(Received(r.buffers - {d}, r.blobs + [(d, bytes)]), msgs, d, bytes)
  {
    BlobsStep(r.blobs, (d, bytes), d);
  }

  lemma Waiting(r: Received, msgs: seq<Message>, d: Digest, bytes: Bytes, buf: seq<Bytes>)
    requires |buf| == ChunkCount(|bytes|) && !Complete(buf)
    requires forall i :: 0 <= i < |buf| ==> buf[i] == [] || buf[i] == Chunk(bytes, i)
    requires forall i :: 0 <= i < |BlobsOf(r.blobs, d)| ==> BlobsOf(r.blobs, d)[i] == bytes
    requires BlobsOf(r.blobs, d) == [] ==> forall i :: 0 <= i < |buf| ==> (buf[i] != [] <==> i in Arrived(msgs, d))
    requires BlobsOf(r.blobs, d) != [] ==> AllArrived(msgs, d, bytes)
    ensures Progress(r.(buffers := r.buffers[d := buf]), msgs, d, bytes)
  {
  }

  lemma OwnChunk(r: Received, msgs: seq<Message>, k: nat, d: Digest, bytes: Bytes)
    requires Progress(r, msgs, d, bytes) && k < ChunkCount(|bytes|) && Countable(bytes)
    ensures Progress(Accept(r, ChunkMessage(d, bytes, k)), msgs + [ChunkMessage(d, bytes, k)], d, bytes)
  {
    var m := ChunkMessage(d, bytes, k);
    assert m == StoragePutChunk(d, k, ChunkCount(|bytes|), Chunk(bytes, k));
    var buf := Filled(r.buffers, d, k, ChunkCount(|bytes|), Chunk(bytes, k));
    ArrivedStep(msgs, m, d);
    FilledSlots(r, Arrived(msgs, d), k, d, bytes);
    if Complete(buf) {
      CompleteIsBlob(buf, bytes);
      Completed(r, msgs + [m], d, bytes, buf);
    } else {
      Waiting(r, msgs + [m], d, bytes, buf);
    }
  }

  lemma {:induction false} ReassemblyProgress(msgs: seq<Message>, d: Digest, bytes: Bytes)
    requires bytes != [] && Countable(bytes) && Genuine(msgs, d, bytes)
    ensures Progress(AcceptAll(Received(map[], []), msgs), msgs, d, bytes)
  {
    if msgs == [] {
      assert 0 < ChunkCount(|bytes|) && 0 !in Arrived(msgs, d);
    } else {
      var front, last := msgs[..|msgs| - 1], msgs[|msgs| - 1];
      assert forall i :: 0 <= i < |front| ==> front[i] == msgs[i];
      ReassemblyProgress(front, d, bytes);
      assert msgs == front + [last];
      var r := AcceptAll(Received(map[], []), front);
      if last.digest == d {
        var k :| 0 <= k < ChunkCount(|bytes|) && last == ChunkMessage(d, bytes, k);
        OwnChunk(r, front, k, d, bytes);
      } else {
        OtherMessage(r, front, last, d, bytes);
      }
    }
  }

  /** Whatever the order and however often the chunks of a blob arrive, mixed with
      any other traffic: a blob is completed under its digest exactly when every
      chunk has arrived, and each completion is the blob itself. */
  lemma {:induction false} Reassembly(msgs: seq<Message>, d: Digest, bytes: Bytes)
    requires bytes != [] && Countable(bytes) && Genuine(msgs, d, bytes)
    ensures var blobs := BlobsOf(AcceptAll(Received(map[], []), msgs).blobs, d);
            && (blobs != [] <==> AllArrived(msgs, d, bytes))
            && (forall i :: 0 <= i < |blobs| ==> blobs[i] == bytes)
  {
    ReassemblyProgress(msgs, d, bytes);
  }

  /** Nothing completed is lost again. */
  lemma CompletedStays(r: Received, m: Message, d: Digest, bytes: Bytes)
    requires bytes in BlobsOf(r.blobs, d)
    ensures bytes in BlobsOf(Accept(r, m).blobs, d)
  {
    var r' := Accept(r, m);
    if r'.blobs != r.blobs {
      assert r'.blobs == r.blobs + [r'.blobs[|r.blobs|]];
      BlobsStep(r.blobs, r'.blobs[|r.blobs|], d);
    }
  }

  /** An inline blob is there as soon as its message is, whatever else arrives. */
  lemma {:induction false} InlineArrives(msgs: seq<Message>, d: Digest, bytes: Bytes)
    requires StoragePut(d, bytes) in msgs
    ensures bytes in BlobsOf(AcceptAll(Received(map[], []), msgs).blobs, d)
  {
    var front, last := msgs[..|msgs| - 1], msgs[|msgs| - 1];
    var r := AcceptAll(Received(map[], []), front);
    if StoragePut(d, bytes) in front {
      InlineArrives(front, d, bytes);
      CompletedStays(r, last, d, bytes);
    } else {
      assert msgs == front + [last];
      BlobsStep(r.blobs, (d, bytes), d);
    }
  }

  // ---------- more chunks than can be counted ----------

  lemma {:induction false} FlattenBound(parts: seq<Bytes>)
    requires forall i :: 0 <= i < |parts| ==> |parts[i]| <= CHUNK_SIZE
    ensures |Flatten(parts)| <= |parts| * CHUNK_SIZE
  {
    if parts != [] {
      FlattenBound(parts[..|parts| - 1]);
    }
  }

  /** No buffer has as many slots as there are chunks, no completion that many bytes. */
  ghost predicate TooSmall(r: Received, d: Digest) {
    && (d in r.buffers ==>
          |r.buffers[d]| < U32_SPAN && forall i :: 0 <= i < |r.buffers[d]| ==> |r.buffers[d][i]| <= CHUNK_SIZE)
    && (forall i :: 0 <= i < |BlobsOf(r.blobs, d)| ==> |BlobsOf(r.blobs, d)[i]| <= (U32_SPAN - 1) * CHUNK_SIZE)
  }

  lemma FilledTooSmall(r: Received, d: Digest, bytes: Bytes, k: nat)
    requires TooSmall(r, d) && k < ChunkCount(|bytes|)
    ensures var m := ChunkMessage(d, bytes, k);
            var buf := Filled(r.buffers, d, m.index, m.total, m.payload);
            && |buf| < U32_SPAN && (forall i :: 0 <= i < |buf| ==> |buf[i]| <= CHUNK_SIZE)
            && |Flatten(buf)| <= (U32_SPAN - 1) * CHUNK_SIZE
  {
    var m := ChunkMessage(d, bytes, k);
    ChunkShapes(bytes, k);
    FlattenBound(Filled(r.buffers, d, m.index, m.total, m.payload));
  }

  lemma StaysTooSmall(r: Received, m: Message, d: Digest, bytes: Bytes)
    requires TooSmall(r, d)
    requires m.digest == d ==> exists k :: 0 <= k < ChunkCount(|bytes|) && m == ChunkMessage(d, bytes, k)
    ensures TooSmall(Accept(r, m), d)
  {
    var r' := Accept(r, m);
    if m.digest == d {
      var k :| 0 <= k < ChunkCount(|bytes|) && m == ChunkMessage(d, bytes, k);
      FilledTooSmall(r, d, bytes, k);
      BlobsStep(r.blobs, (d, Flatten(Filled(r.buffers, d, m.index, m.total, m.payload))), d);
    } else if r'.blobs != r.blobs {
      BlobsStep(r.blobs, r'.blobs[|r.blobs|], d);
      assert r'.blobs == r.blobs + [r'.blobs[|r.blobs|]];
    }
  }

  lemma {:induction false} AlwaysTooSmall(msgs: seq<Message>, d: Digest, bytes: Bytes)
    requires Genuine(msgs, d, bytes)
    ensures TooSmall(AcceptAll(Received(map[], []), msgs), d)
  {
    if msgs != [] {
      var front, last := msgs[..|msgs| - 1], msgs[|msgs| - 1];
      assert forall i :: 0 <= i < |front| ==> front[i] == msgs[i];
      AlwaysTooSmall(front, d, bytes);
      StaysTooSmall(AcceptAll(Received(map[], []), front), last, d, bytes);
    }
  }

  lemma UploadArrives(msgs: seq<Message>, d: Digest, bytes: Bytes)
    requires |bytes| > INLINE_MAX && Countable(bytes) && Genuine(msgs, d, bytes)
    requires forall m :: m in Upload(d, bytes) ==> m in msgs
    ensures bytes in BlobsOf(AcceptAll(Received(map[], []), msgs).blobs, d)
  {
    var up := Upload(d, bytes);
    forall k | 0 <= k < ChunkCount(|bytes|)
      ensures k in Arrived(msgs, d)
    {
      assert up[k] == ChunkMessage(d, bytes, k) && up[k] in msgs;
      var i :| 0 <= i < |msgs| && msgs[i] == up[k];
    }
    Reassembly(msgs, d, bytes);
    var blobs := BlobsOf(AcceptAll(Received(map[], []), msgs).blobs, d);
    assert blobs[0] == bytes;
  }

  /** Once every message of a chunked upload has arrived, the blob is there, if and
      only if its chunks could be counted in 32 bits. */
  lemma UploadArrivesIff(msgs: seq<Message>, d: Digest, bytes: Bytes)
    requires |bytes| > INLINE_MAX && Genuine(msgs, d, bytes)
    requires forall m :: m in Upload(d, bytes) ==> m in msgs
    ensures bytes in BlobsOf(AcceptAll(Received(map[], []), msgs).blobs, d) <==> Countable(bytes)
  {
    if Countable(bytes) {
      UploadArrives(msgs, d, bytes);
    } else {
      AlwaysTooSmall(msgs, d, bytes);
      assert |bytes| > (U32_SPAN - 1) * CHUNK_SIZE;
    }
  }
}
