/** The server's deniable buffers: chunk buffers and payload queues in the store. */
module DenimManager {
  import opened Bincode
  import opened Limits
  import opened Text
  import opened Chunks
  import opened Cutting
  import opened Streams
  import opened Assembly
  import opened Relay
  import opened Entries
  import opened QueueKeys
  import opened RedisQueues
  import opened DeniablePayloads
  import opened TwoHop

  // ---- Fresh identifiers ----

  function GuidText(n: nat): string { "g" + PrintNat(n) }

  lemma GuidTextInjective(m: nat, n: nat)
    ensures GuidText(m) == GuidText(n) <==> m == n
    ensures GuidText(n) != COUNTER
  {
    assert GuidText(m)[1..] == PrintNat(m) && GuidText(n)[1..] == PrintNat(n);
    NatRoundTrip(m);
    NatRoundTrip(n);
    assert GuidText(n)[0] == 'g' && COUNTER[0] == 'c';
  }

  /** Stands for the random UUIDs of the program, of which only novelty matters. */
  class Uuids {
    var next: nat

    constructor ()
      ensures next == 0
    {
      next := 0;
    }

    method Fresh() returns (guid: string)
      modifies this
      ensures guid == GuidText(old(next)) && next == old(next) + 1
    {
      guid := GuidText(next);
      next := next + 1;
    }
  }

  ghost predicate IssuedGuid(guid: string, next: nat) {
    exists m: nat :: m < next && guid == GuidText(m)
  }

  /** Every guid in the store came from the generator. */
  ghost predicate Issued(contents: map<QueueId, seq<Item>>, next: nat) {
    forall k: QueueId, g: string {:trigger HasGuid(ItemsIn(contents, k), g)} ::
      HasGuid(ItemsIn(contents, k), g) ==> IssuedGuid(g, next)
  }

  lemma NovelGuid(contents: map<QueueId, seq<Item>>, next: nat, k: QueueId)
    requires Issued(contents, next)
    ensures !HasGuid(ItemsIn(contents, k), GuidText(next)) && GuidText(next) != COUNTER
  {
    GuidTextInjective(next, next);
    if HasGuid(ItemsIn(contents, k), GuidText(next)) {
      var m: nat :| m < next && GuidText(next) == GuidText(m);
      GuidTextInjective(m, next);
    }
  }

  /** A queue may lose guids and gain the one just issued. */
  lemma IssuedKeeps(contents: map<QueueId, seq<Item>>, next: nat, k: QueueId, items: seq<Item>, next': nat)
    requires Issued(contents, next) && next <= next'
    requires forall g :: HasGuid(items, g) ==> HasGuid(ItemsIn(contents, k), g) || IssuedGuid(g, next')
    ensures Issued(contents[k := items], next')
  {
    var contents' := contents[k := items];
    forall j: QueueId, g: string | HasGuid(ItemsIn(contents', j), g) ensures IssuedGuid(g, next') {
      if j != k || HasGuid(ItemsIn(contents, k), g) {
        assert HasGuid(ItemsIn(contents, j), g);
        var m: nat :| m < next && g == GuidText(m);
        assert m < next' && g == GuidText(m);
      }
    }
  }

  /** Queues may lose guids. */
  ghost predicate NoNewGuids(before: map<QueueId, seq<Item>>, after: map<QueueId, seq<Item>>) {
    forall k: QueueId, g: string {:trigger HasGuid(ItemsIn(after, k), g)} ::
      HasGuid(ItemsIn(after, k), g) ==> HasGuid(ItemsIn(before, k), g)
  }

  lemma NoneNewlyIssued(before: map<QueueId, seq<Item>>, after: map<QueueId, seq<Item>>, next: nat)
    requires Issued(before, next) && NoNewGuids(before, after)
    ensures Issued(after, next)
  {
    forall k: QueueId, g: string | HasGuid(ItemsIn(after, k), g) ensures IssuedGuid(g, next) {
      assert HasGuid(ItemsIn(before, k), g);
    }
  }

  lemma TakenGuids(before: map<QueueId, seq<Item>>, after: map<QueueId, seq<Item>>, k: QueueId, amount: nat)
    requires forall j: QueueId :: j != k ==> ItemsIn(after, j) == ItemsIn(before, j)
    requires ItemsIn(after, k) == ItemsIn(before, k) || ItemsIn(after, k) == TakeItem(ItemsIn(before, k), amount)
    ensures NoNewGuids(before, after)
  {
    var items := ItemsIn(before, k);
    forall j: QueueId, g: string | HasGuid(ItemsIn(after, j), g) ensures HasGuid(ItemsIn(before, j), g) {
      if j == k && ItemsIn(after, k) != items {
        var i :| 0 <= i < |TakeItem(items, amount)| && TakeItem(items, amount)[i].guid == g;
        assert items[if amount < |items[0].bytes| then i else i + 1].guid == g;
      }
    }
  }

  lemma FewerAndFewer(a: map<QueueId, seq<Item>>, b: map<QueueId, seq<Item>>, c: map<QueueId, seq<Item>>)
    requires NoNewGuids(a, b) && NoNewGuids(b, c)
    ensures NoNewGuids(a, c)
  {
    forall k: QueueId, g: string | HasGuid(ItemsIn(c, k), g) ensures HasGuid(ItemsIn(a, k), g) {
      assert HasGuid(ItemsIn(b, k), g);
    }
  }

  // ---- Chunk buffers ----

  function ChunkBuffer(a: Address): QueueId { QueueId(ChunkQueue(Sender), a.account, a.device) }
  function PayloadBuffer(a: Address): QueueId { QueueId(PayloadQueue(Receiver), a.account, a.device) }

  /** The items are the serialized chunks, in order. */
  ghost predicate HoldChunks(items: seq<Item>, cs: seq<DenimChunk>) {
    |items| == |cs| && forall i :: 0 <= i < |cs| ==> Encodable(cs[i]) && items[i].bytes == SerializeChunk(cs[i])
  }

  /** Puts a value at the end of a queue under a new guid. */
  method Append(redis: Redis, uuids: Uuids, k: QueueId, value: seq<Byte>, now: nat)
    requires redis.Valid() && Issued(redis.contents, uuids.next)
    modifies redis, uuids
    ensures redis.Valid() && Issued(redis.contents, uuids.next) && redis.locks == old(redis.locks)
    ensures exists item: Item :: (item.bytes == value && item.order == 0 && item.insertedAt == now
      && redis.contents == old(redis.contents)[k := old(redis.Items(k)) + [item]])
    ensures redis.indexes == AfterPut(old(redis.indexes), k, now)
  {
    NovelGuid(redis.contents, uuids.next, k);
    var guid := uuids.Fresh();
    var id := redis.Insert(k, guid, value, now);
    ghost var item := Item(guid, id, value, 0, now);
    assert redis.contents == old(redis.contents)[k := old(redis.Items(k)) + [item]];
    AppendIssued(old(redis.contents), old(uuids.next), k, item);
  }

  lemma AppendIssued(contents: map<QueueId, seq<Item>>, next: nat, k: QueueId, item: Item)
    requires Issued(contents, next) && item.guid == GuidText(next)
    ensures Issued(contents[k := ItemsIn(contents, k) + [item]], next + 1)
  {
    var items, items' := ItemsIn(contents, k), ItemsIn(contents, k) + [item];
    forall g | HasGuid(items', g) ensures HasGuid(items, g) || IssuedGuid(g, next + 1) {
      var i :| 0 <= i < |items'| && items'[i].guid == g;
      if i < |items| { assert items[i].guid == g; } else { assert next < next + 1 && g == GuidText(next); }
    }
    IssuedKeeps(contents, next, k, items', next + 1);
  }

  method EnqueueIncomingChunkBuffer(redis: Redis, uuids: Uuids, sender: Address, chunks: seq<DenimChunk>, now: nat,
                                    ghost buffer: seq<DenimChunk>)
    requires redis.Valid() && Issued(redis.contents, uuids.next)
    requires HoldChunks(redis.Items(ChunkBuffer(sender)), buffer) && forall c :: c in chunks ==> Encodable(c)
    modifies redis, uuids
    ensures redis.Valid() && Issued(redis.contents, uuids.next) && redis.locks == old(redis.locks)
    ensures HoldChunks(redis.Items(ChunkBuffer(sender)), buffer + chunks)
    ensures forall k :: k != ChunkBuffer(sender) ==> redis.Items(k) == old(redis.Items(k))
  {
    var k := ChunkBuffer(sender);
    for n := 0 to |chunks|
      invariant redis.Valid() && Issued(redis.contents, uuids.next) && redis.locks == old(redis.locks)
      invariant HoldChunks(redis.Items(k), buffer + chunks[..n])
      invariant forall j :: j != k ==> redis.Items(j) == old(redis.Items(j))
    {
      assert chunks[n] in chunks;
      assert buffer + chunks[..n + 1] == buffer + chunks[..n] + [chunks[n]];
      Append(redis, uuids, k, SerializeChunk(chunks[n]), now);
    }
    assert chunks[..|chunks|] == chunks;
  }

  /** Reads and removes the first page of the sender's buffer. */
  method DequeueIncomingChunks(redis: Redis, sender: Address, ghost buffer: seq<DenimChunk>, ghost next: nat)
    returns (chunks: seq<DenimChunk>)
    requires redis.Valid() && Issued(redis.contents, next)
    requires HoldChunks(redis.Items(ChunkBuffer(sender)), buffer)
    modifies redis
    ensures redis.Valid() && Issued(redis.contents, next) && redis.locks == old(redis.locks)
    ensures forall k :: k != ChunkBuffer(sender) ==> redis.Items(k) == old(redis.Items(k))
    ensures var n := if ChunkBuffer(sender) in redis.locks then 0 else Min(|buffer|, PAGE_SIZE);
      chunks == buffer[..n] && HoldChunks(redis.Items(ChunkBuffer(sender)), buffer[n..])
  {
    var k := ChunkBuffer(sender);
    ghost var items := redis.Items(k);
    var values, guids := redis.GetValues(k);
    if values == [] {
      assert buffer[0..] == buffer;
      return [];
    }
    ghost var n := |values|;
    PageOff(redis.queues, redis.contents, k, next, n);
    HoldSplit(items, buffer, n);
    var removed := redis.Remove(k, guids);
    assert removed == Values(items[..n]) && redis.Items(k) == items[n..];
    assert n == Min(|buffer|, PAGE_SIZE);
    chunks := DecodeChunks(removed, buffer[..n]);
  }

  /** What taking the first n items off a queue does. */
  lemma PageOff(queues: map<QueueId, QueueData>, contents: map<QueueId, seq<Item>>, k: QueueId, next: nat, n: nat)
    requires AllComplete(queues, contents) && Issued(contents, next) && n <= |ItemsIn(contents, k)|
    ensures var items := ItemsIn(contents, k);
      && COUNTER !in Guids(items[..n])
      && RemoveGuids(items, Guids(items[..n])) == Removal(items[n..], Values(items[..n]))
      && Issued(contents[k := items[n..]], next)
  {
    ReadListed(queues, contents, k);
    RemovePrefix(ItemsIn(contents, k), n);
    NoCounterAmong(ItemsIn(contents, k), n);
    RestIssued(contents, next, k, n);
  }

  lemma HoldSplit(items: seq<Item>, cs: seq<DenimChunk>, n: nat)
    requires HoldChunks(items, cs) && n <= |items|
    ensures HoldChunks(items[n..], cs[n..]) && AreSerialized(Values(items[..n]), cs[..n])
  {
  }

  lemma RestIssued(contents: map<QueueId, seq<Item>>, next: nat, k: QueueId, n: nat)
    requires Issued(contents, next) && n <= |ItemsIn(contents, k)|
    ensures Issued(contents[k := ItemsIn(contents, k)[n..]], next)
  {
    var items, rest := ItemsIn(contents, k), ItemsIn(contents, k)[n..];
    forall g | HasGuid(rest, g) ensures HasGuid(items, g) {
      var i :| 0 <= i < |rest| && rest[i].guid == g;
      assert items[i + n].guid == g;
    }
    IssuedKeeps(contents, next, k, rest, next);
  }

  ghost predicate AreSerialized(values: seq<seq<Byte>>, cs: seq<DenimChunk>) {
    |values| == |cs| && forall i :: 0 <= i < |cs| ==> Encodable(cs[i]) && values[i] == SerializeChunk(cs[i])
  }

  method DecodeChunks(values: seq<seq<Byte>>, ghost expected: seq<DenimChunk>) returns (chunks: seq<DenimChunk>)
    requires AreSerialized(values, expected)
    ensures chunks == expected
  {
    chunks := [];
    for n := 0 to |values|
      invariant chunks == expected[..n]
    {
      ChunkRoundTrip(expected[n], []);
      assert values[n] + [] == values[n];
      var chunk := DeserializeChunk(values[n]);
      chunks := chunks + [chunk.value.0];
    }
  }

  /** Deserialized payloads and the chunks left over. */
  datatype Made = Made(payloads: seq<DeniablePayload>, pending: seq<DenimChunk>)

  /** Reassembly. None is the panic on a chunk of unknown kind, or the error of a payload
      that cannot be deserialized. */
  method CreateDeniablePayloads(codec: Codec<DeniablePayload>, chunks: seq<DenimChunk>) returns (made: Option<Made>)
    ensures var a := Assemble(chunks, []); var payloads := DecodeAll(codec, a.payloads);
      && (made.None? <==> (exists i :: 0 <= i < |chunks| && chunks[i].flags > 2) || payloads.None?)
      && (made.Some? ==> made.value == Made(payloads.value, a.pending))
  {
    var payloads, pending := [], [];
    ghost var data := [];
    for n := 0 to |chunks|
      invariant forall i :: 0 <= i < n ==> chunks[i].flags <= 2
      invariant DecodeAll(codec, data) == Some(payloads)
      invariant Assemble(chunks, [])
        == Assembled(data + Assemble(chunks[n..], pending).payloads, Assemble(chunks[n..], pending).pending)
    {
      assert chunks[n..][0] == chunks[n] && chunks[n..][1..] == chunks[n + 1..];
      var chunk := chunks[n];
      var kind := FromFlags(chunk.flags);
      if kind.None? { return None; }
      match kind.value
      case Dummy =>
      case Final =>
        pending := SortDesc(pending);
        var bytes := Bytes(pending) + chunk.chunk;
        ghost var more := Assemble(chunks[n + 1..], []).payloads;
        assert data + ([bytes] + more) == data + [bytes] + more;
        DecodeNext(codec, data, bytes, more);
        var payload := codec.dec(bytes);
        if payload.None? { return None; }
        payloads, data := payloads + [payload.value], data + [bytes];
        pending := [];
      case Data(_) =>
        pending := pending + [chunk];
    }
    assert chunks[|chunks|..] == [] && data + [] == data;
    made := Some(Made(payloads, pending));
  }

  /** A flush of the buffer, unless its persisting key is set: then nothing is read. */
  function FlushUnlocked(locked: bool, buffer: seq<DenimChunk>): Received {
    if locked then Received([], buffer) else Flush(buffer)
  }

  /** The chunks a flush assembles are of known kinds. */
  ghost predicate PageSupported(buffer: seq<DenimChunk>) {
    forall i :: 0 <= i < Min(|buffer|, PAGE_SIZE) ==> buffer[i].flags <= 2
  }

  /** Reads a page, assembles it and stores the unfinished rest behind what was not read.
      If that fails the whole page is gone. */
  method FlushIncomingChunkBuffer(redis: Redis, uuids: Uuids, codec: Codec<DeniablePayload>, sender: Address, now: nat,
                                  ghost buffer: seq<DenimChunk>)
    returns (payloads: Option<seq<DeniablePayload>>)
    requires redis.Valid() && Issued(redis.contents, uuids.next)
    requires HoldChunks(redis.Items(ChunkBuffer(sender)), buffer)
    modifies redis, uuids
    ensures redis.Valid() && Issued(redis.contents, uuids.next) && redis.locks == old(redis.locks)
    ensures forall k :: k != ChunkBuffer(sender) ==> redis.Items(k) == old(redis.Items(k))
    ensures var f := FlushUnlocked(ChunkBuffer(sender) in redis.locks, buffer);
      var read := DecodeAll(codec, f.payloads);
      && (payloads.Some? <==> ChunkBuffer(sender) in redis.locks || (PageSupported(buffer) && read.Some?))
      && (payloads.Some? ==> payloads == read && HoldChunks(redis.Items(ChunkBuffer(sender)), f.stored))
      && (payloads.None? ==> HoldChunks(redis.Items(ChunkBuffer(sender)), buffer[Min(|buffer|, PAGE_SIZE)..]))
  {
    var chunks := DequeueIncomingChunks(redis, sender, buffer, uuids.next);
    ghost var n := |chunks|;
    assert forall i :: 0 <= i < n ==> chunks[i] == buffer[i];
    var made := CreateDeniablePayloads(codec, chunks);
    if made.None? { return None; }
    var pending := made.value.pending;
    if pending != [] {
      assert forall c :: c in pending ==> Encodable(c) by { PendingFromPage(chunks, buffer, n); }
      EnqueueIncomingChunkBuffer(redis, uuids, sender, pending, now, buffer[n..]);
    } else {
      assert buffer[n..] + pending == buffer[n..];
    }
    payloads := Some(made.value.payloads);
  }

  lemma PendingFromPage(chunks: seq<DenimChunk>, buffer: seq<DenimChunk>, n: nat)
    requires n <= |buffer| && chunks == buffer[..n] && forall i :: 0 <= i < |buffer| ==> Encodable(buffer[i])
    ensures forall c :: c in Assemble(chunks, []).pending ==> Encodable(c)
  {
    PendingIsData(chunks, []);
    forall c | c in Assemble(chunks, []).pending ensures Encodable(c) {
      assert c in chunks;
      var i :| 0 <= i < |chunks| && chunks[i] == c;
      assert buffer[i] == c;
    }
  }

  // ---- Payload queues ----

  /** The same seen as a byte queue: a fresh payload behind the others. */
  method AppendPayload(redis: Redis, uuids: Uuids, k: QueueId, value: seq<Byte>, now: nat)
    requires redis.Valid() && Issued(redis.contents, uuids.next)
    modifies redis, uuids
    ensures redis.Valid() && Issued(redis.contents, uuids.next) && redis.locks == old(redis.locks)
    ensures Pendings(redis.Items(k)) == old(Pendings(redis.Items(k))) + [Pending(value, 0)]
    ensures forall j :: j != k ==> redis.Items(j) == old(redis.Items(j))
  {
    Append(redis, uuids, k, value, now);
  }

  method EnqueueOutgoingPayloadBuffer(redis: Redis, uuids: Uuids, codec: Codec<DeniablePayload>,
                                      receiver: Address, payloads: seq<DeniablePayload>, now: nat)
    requires redis.Valid() && Issued(redis.contents, uuids.next)
    modifies redis, uuids
    ensures redis.Valid() && Issued(redis.contents, uuids.next) && redis.locks == old(redis.locks)
    ensures Pendings(redis.Items(PayloadBuffer(receiver)))
         == Pendings(old(redis.Items(PayloadBuffer(receiver)))) + Fresh(EncodeAll(codec, payloads))
    ensures forall k :: k != PayloadBuffer(receiver) ==> redis.Items(k) == old(redis.Items(k))
  {
    var k := PayloadBuffer(receiver);
    ghost var start := Pendings(redis.Items(k));
    assert start + Fresh(EncodeAll(codec, payloads[..0])) == start;
    for n := 0 to |payloads|
      invariant redis.Valid() && Issued(redis.contents, uuids.next) && redis.locks == old(redis.locks)
      invariant Pendings(redis.Items(k)) == start + Fresh(EncodeAll(codec, payloads[..n]))
      invariant forall j :: j != k ==> redis.Items(j) == old(redis.Items(j))
    {
      AppendPayload(redis, uuids, k, codec.enc(payloads[n]), now);
      FreshPush(codec, start, payloads, n);
    }
    assert payloads[..|payloads|] == payloads;
  }

  lemma FreshPush(codec: Codec<DeniablePayload>, q: seq<Pending>, ps: seq<DeniablePayload>, n: nat)
    requires n < |ps|
    ensures q + Fresh(EncodeAll(codec, ps[..n])) + [Pending(codec.enc(ps[n]), 0)]
      == q + Fresh(EncodeAll(codec, ps[..n + 1]))
  {
    var more := Fresh(EncodeAll(codec, ps[..n])) + [Pending(codec.enc(ps[n]), 0)];
    assert Fresh(EncodeAll(codec, ps[..n + 1])) == more;
    assert q + more == q + Fresh(EncodeAll(codec, ps[..n])) + [Pending(codec.enc(ps[n]), 0)];
  }

  function AsChunks(cut: seq<(seq<Byte>, int)>): (cs: seq<DenimChunk>)
    ensures |cs| == |cut| && forall i :: 0 <= i < |cut| ==> cs[i] == DenimChunk(cut[i].0, cut[i].1)
  {
    seq(|cut|, i requires 0 <= i < |cut| => DenimChunk(cut[i].0, cut[i].1))
  }

  /** The server's fill loop. A locked queue yields one dummy. */
  method DequeuePayloadData(redis: Redis, k: QueueId, amount: nat)
    returns (result: seq<(seq<Byte>, int)>, take: nat)
    requires redis.Valid()
    modifies redis
    ensures redis.Valid() && redis.locks == old(redis.locks)
    ensures forall j :: j != k ==> redis.Items(j) == old(redis.Items(j))
    ensures k in redis.locks ==> redis.Items(k) == old(redis.Items(k))
    ensures NoNewGuids(old(redis.contents), redis.contents)
    ensures Cut(AsChunks(result), take, redis.Seen(k)) == ServerFill(old(redis.Seen(k)), amount)
  {
    result, take := [], amount;
    ghost var start := redis.contents;
    ghost var whole := ServerFill(redis.Seen(k), amount);
    while take >= EMPTY_DENIMCHUNK_SIZE
      invariant redis.Valid() && redis.locks == old(redis.locks)
      invariant forall j :: j != k ==> redis.Items(j) == old(redis.Items(j))
      invariant k in redis.locks ==> redis.Items(k) == old(redis.Items(k))
      invariant NoNewGuids(start, redis.contents)
      invariant whole == Continue(AsChunks(result), ServerFill(redis.Seen(k), take))
      decreases take
    {
      ghost var before := redis.contents;
      var piece, left, stop := DequeueRound(redis, k, take);
      FewerAndFewer(start, before, redis.contents);
      ContinueStep(result, piece, ServerFill(redis.Seen(k), left));
      result, take := result + [piece], left;
      if stop { break; }
    }
  }

  /** One round of the loop. */
  method DequeueRound(redis: Redis, k: QueueId, take: nat) returns (piece: (seq<Byte>, int), left: nat, stop: bool)
    requires redis.Valid() && take >= EMPTY_DENIMCHUNK_SIZE
    modifies redis
    ensures redis.Valid() && redis.locks == old(redis.locks)
    ensures forall j :: j != k ==> redis.Items(j) == old(redis.Items(j))
    ensures k in redis.locks ==> redis.Items(k) == old(redis.Items(k))
    ensures NoNewGuids(old(redis.contents), redis.contents)
    ensures left < take && (stop ==> left == 0)
    ensures var more := ServerFill(redis.Seen(k), left);
      ServerFill(old(redis.Seen(k)), take) == Cut([DenimChunk(piece.0, piece.1)] + more.chunks, more.left, more.rest)
  {
    left := take - EMPTY_DENIMCHUNK_SIZE;
    ghost var before := redis.contents;
    var taken := redis.DequeueBytes(k, left);
    forall j: QueueId ensures ItemsIn(redis.contents, j) == redis.Items(j) {}
    TakenGuids(before, redis.contents, k, left);
    var (data, n, order) := taken.value;
    if n == 0 {
      return (Zeros(left), ToFlags(Dummy)), 0, true;
    }
    piece, left, stop := (data, order), left - n, false;
  }

  function Continue(done: seq<DenimChunk>, cut: Cut): Cut {
    cut.(chunks := done + cut.chunks)
  }

  lemma ContinueStep(result: seq<(seq<Byte>, int)>, piece: (seq<Byte>, int), more: Cut)
    ensures var c := DenimChunk(piece.0, piece.1);
      Continue(AsChunks(result), Cut([c] + more.chunks, more.left, more.rest))
        == Continue(AsChunks(result + [piece]), more)
  {
    var done, c := AsChunks(result), DenimChunk(piece.0, piece.1);
    assert AsChunks(result + [piece]) == done + [c];
    assert done + ([c] + more.chunks) == done + [c] + more.chunks;
  }

  method DequeueOutgoingPayloadBuffer(redis: Redis, receiver: Address, amount: nat)
    returns (chunks: seq<DenimChunk>, left: nat)
    requires redis.Valid()
    modifies redis
    ensures redis.Valid() && redis.locks == old(redis.locks)
    ensures forall j :: j != PayloadBuffer(receiver) ==> redis.Items(j) == old(redis.Items(j))
    ensures NoNewGuids(old(redis.contents), redis.contents)
    ensures Cut(chunks, left, redis.Seen(PayloadBuffer(receiver)))
         == ServerFill(old(redis.Seen(PayloadBuffer(receiver))), amount)
  {
    var cut;
    cut, left := DequeuePayloadData(redis, PayloadBuffer(receiver), amount);
    chunks := [];
    for n := 0 to |cut|
      invariant chunks == AsChunks(cut)[..n]
    {
      chunks := chunks + [DenimChunk(cut[n].0, cut[n].1)];
    }
    assert AsChunks(cut)[..|cut|] == AsChunks(cut);
  }

  /** The chunk area and ballast around one envelope for a device: together they fill the
      budget to the byte. */
  method CreateDenimMessage(redis: Redis, receiver: Address, total: Budget)
    returns (chunks: seq<DenimChunk>, ballast: seq<Byte>)
    requires redis.Valid()
    modifies redis
    ensures redis.Valid() && redis.locks == old(redis.locks)
    ensures forall j :: j != PayloadBuffer(receiver) ==> redis.Items(j) == old(redis.Items(j))
    ensures NoNewGuids(old(redis.contents), redis.contents)
    ensures Cut(chunks, |ballast|, redis.Seen(PayloadBuffer(receiver)))
         == ServerFill(old(redis.Seen(PayloadBuffer(receiver))), total - EMPTY_VEC_SIZE)
    ensures |Serialize(chunks)| + |ballast| == total && |ballast| < EMPTY_DENIMCHUNK_SIZE
  {
    ghost var q := redis.Seen(PayloadBuffer(receiver));
    var left;
    chunks, left := DequeueOutgoingPayloadBuffer(redis, receiver, total - EMPTY_VEC_SIZE);
    ServerFillsTotal(q, total, Cut(chunks, left, redis.Seen(PayloadBuffer(receiver))));
    ballast := Zeros(left);
  }

  lemma ServerFillsTotal(q: seq<Pending>, total: Budget, cut: Cut)
    requires cut == ServerFill(q, total - EMPTY_VEC_SIZE)
    ensures |Serialize(cut.chunks)| + cut.left == total && cut.left < EMPTY_DENIMCHUNK_SIZE
  {
    ServerFillExact(q, total - EMPTY_VEC_SIZE);
    SerializedSize(cut.chunks);
  }
}
