/** The client's cutting loops, proved against ClientFill. total is the carrier's budget. */
module Chunker {
  import opened Bincode
  import opened Chunks
  import opened Cutting
  import opened Streams
  import opened Sizing
  import opened DeviceStore

  /** One round of the loop on queue q with size bytes after the chunk header. */
  ghost predicate Round(q: seq<Pending>, size: nat, c: DenimChunk, q': seq<Pending>) {
    if q != [] && q[0].bytes != [] && size != 0 then
      if |q[0].bytes| <= size then c == FinalChunk(q[0].bytes) && q' == q[1..]
      else c == DenimChunk(q[0].bytes[..size], q[0].order)
           && q' == [Pending(q[0].bytes[size..], q[0].order - 1)] + q[1..]
    else c == DummyChunk(size) && q' == q
  }

  /** Loop invariant: the chunks so far and a fill of the rest make the whole fill. */
  ghost predicate Filling(done: seq<DenimChunk>, q: seq<Pending>, free: nat, total: Budget, whole: Cut) {
    && EMPTY_VEC_SIZE + Cost(done) + free == total
    && var more := ClientFill(q, free); whole == Cut(done + more.chunks, more.left, more.rest)
  }

  lemma FillingStarts(q: seq<Pending>, total: Budget)
    ensures Filling([], q, total - EMPTY_VEC_SIZE, total, ClientFill(q, total - EMPTY_VEC_SIZE))
  {
    var more := ClientFill(q, total - EMPTY_VEC_SIZE);
    assert [] + more.chunks == more.chunks;
  }

  /** One round more. */
  lemma FillingStep(done: seq<DenimChunk>, q: seq<Pending>, free: nat, total: Budget, whole: Cut,
                    c: DenimChunk, q': seq<Pending>) returns (free': nat)
    requires Filling(done, q, free, total, whole) && free >= EMPTY_DENIMCHUNK_SIZE
    requires Round(q, free - EMPTY_DENIMCHUNK_SIZE, c, q')
    ensures free' == total - EMPTY_VEC_SIZE - Cost(done + [c]) == free - EMPTY_DENIMCHUNK_SIZE - |c.chunk|
    ensures Filling(done + [c], q', free', total, whole)
  {
    CostConcat(done, [c]);
    RoundIsFill(q, free, c, q');
    free' := free - EMPTY_DENIMCHUNK_SIZE - |c.chunk|;
    var more := ClientFill(q', free').chunks;
    assert done + ([c] + more) == done + [c] + more;
  }

  /** The free space as the program measures it. */
  method SpaceLeft(total: Budget, chunks: seq<DenimChunk>) returns (free: int)
    ensures free == total - EMPTY_VEC_SIZE - Cost(chunks)
  {
    SerializedSize(chunks);
    free := total - |Serialize(chunks)|;
  }

  lemma RoundIsFill(q: seq<Pending>, free: nat, c: DenimChunk, q': seq<Pending>)
    requires free >= EMPTY_DENIMCHUNK_SIZE && Round(q, free - EMPTY_DENIMCHUNK_SIZE, c, q')
    ensures |c.chunk| <= free - EMPTY_DENIMCHUNK_SIZE
    ensures var more := ClientFill(q', free - EMPTY_DENIMCHUNK_SIZE - |c.chunk|);
      ClientFill(q, free) == Cut([c] + more.chunks, more.left, more.rest)
  {
  }

  lemma FillingEnds(done: seq<DenimChunk>, q: seq<Pending>, free: nat, total: Budget, whole: Cut)
    requires Filling(done, q, free, total, whole) && free < EMPTY_DENIMCHUNK_SIZE
    ensures whole == Cut(done, free, q) && |Serialize(done)| + free == total
  {
    SerializedSize(done);
    assert done + [] == done;
  }

  /** The chunk for the next size bytes, taken from the table's first row. */
  method NextChunk(size: nat, buffer: Device) returns (c: DenimChunk)
    requires buffer.Valid()
    modifies buffer`payloads
    ensures buffer.Valid() && Round(old(buffer.Outbox()), size, c, buffer.Outbox())
  {
    var row := buffer.GetDeniablePayload();
    var current := if row.Some? then row.value else PayloadRow(0, [], 0);
    if current.content != [] && size != 0 {
      if |current.content| <= size {
        c := DenimChunk(current.content, ToFlags(Final));
        buffer.RemoveDeniablePayload(current.id);
      } else {
        c := DenimChunk(current.content[..size], ToFlags(Data(current.chunkCount)));
        buffer.StoreDeniablePayload(Some(current.id), current.chunkCount - 1, current.content[size..]);
      }
    } else {
      c := DenimChunk(Zeros(size), ToFlags(Dummy));
    }
  }

  /** One round on the table. */
  method CreateChunk(outgoing: seq<DenimChunk>, free: nat, total: Budget, buffer: Device, ghost whole: Cut)
    returns (outgoing': seq<DenimChunk>, free': int)
    requires buffer.Valid() && Filling(outgoing, buffer.Outbox(), free, total, whole)
    requires free >= EMPTY_DENIMCHUNK_SIZE
    modifies buffer`payloads
    ensures buffer.Valid() && 0 <= free' < free && Filling(outgoing', buffer.Outbox(), free', total, whole)
  {
    ghost var q := buffer.Outbox();
    var chunk := NextChunk(free - EMPTY_DENIMCHUNK_SIZE, buffer);
    ghost var left := FillingStep(outgoing, q, free, total, whole, chunk, buffer.Outbox());
    outgoing' := outgoing + [chunk];
    free' := SpaceLeft(total, outgoing');
  }

  method CreateChunks(total: Budget, buffer: Device) returns (outgoing: seq<DenimChunk>, free: nat)
    requires buffer.Valid()
    modifies buffer`payloads
    ensures buffer.Valid()
    ensures Cut(outgoing, free, buffer.Outbox()) == ClientFill(old(buffer.Outbox()), total - EMPTY_VEC_SIZE)
    ensures |Serialize(outgoing)| + free == total && free < EMPTY_DENIMCHUNK_SIZE
  {
    ghost var whole := ClientFill(buffer.Outbox(), total - EMPTY_VEC_SIZE);
    FillingStarts(buffer.Outbox(), total);
    outgoing := [];
    free := total - EMPTY_VEC_SIZE;
    while free >= EMPTY_DENIMCHUNK_SIZE
      invariant buffer.Valid() && Filling(outgoing, buffer.Outbox(), free, total, whole)
      decreases free
    {
      outgoing, free := CreateChunk(outgoing, free, total, buffer, whole);
    }
    FillingEnds(outgoing, buffer.Outbox(), free, total, whole);
  }

  /** The chunk for the next size bytes of the payload in hand. */
  method NextOrderedChunk(size: nat, data: seq<Byte>, count: int, ghost q: seq<Pending>)
    returns (c: DenimChunk, data': seq<Byte>, count': int, ghost q': seq<Pending>)
    requires if q == [] then data == [] else q == [Pending(data, count)]
    ensures Round(q, size, c, q')
    ensures if q' == [] then data' == [] && count' == count else q' == [Pending(data', count')]
    ensures count' == count || |c.chunk| == size
  {
    data', count', q' := data, count, q;
    if data != [] && size != 0 {
      if |data| <= size {
        c := DenimChunk(data, ToFlags(Final));
        data', q' := [], [];
      } else {
        c := DenimChunk(data[..size], ToFlags(Data(count)));
        count', data' := count - 1, data[size..];
        q' := [Pending(data', count')];
      }
    } else {
      c := DenimChunk(Zeros(size), ToFlags(Dummy));
    }
  }

  /** The same loop over one payload held in memory; what is not sent is returned. */
  method CreateOrderedChunks(total: Budget, payload: DenimChunk)
    returns (result: seq<DenimChunk>, free: nat, pending: DenimChunk)
    ensures var cut := ClientFill([Pending(payload.chunk, payload.flags)], total - EMPTY_VEC_SIZE);
      && result == cut.chunks && free == cut.left
      && (if cut.rest == [] then pending == DenimChunk([], payload.flags)
          else cut.rest == [Pending(pending.chunk, pending.flags)])
    ensures |Serialize(result)| + free == total && free < EMPTY_DENIMCHUNK_SIZE
  {
    result := [];
    var data, count := payload.chunk, payload.flags;
    ghost var q := [Pending(payload.chunk, payload.flags)];
    ghost var whole := ClientFill(q, total - EMPTY_VEC_SIZE);
    FillingStarts(q, total);
    free := total - EMPTY_VEC_SIZE;
    while free >= EMPTY_DENIMCHUNK_SIZE
      invariant Filling(result, q, free, total, whole)
      invariant free > 0 ==> count == payload.flags
      invariant if q == [] then data == [] && count == payload.flags else q == [Pending(data, count)]
      decreases free
    {
      ghost var before := q;
      var chunk;
      chunk, data, count, q := NextOrderedChunk(free - EMPTY_DENIMCHUNK_SIZE, data, count, q);
      ghost var left := FillingStep(result, before, free, total, whole, chunk, q);
      result := result + [chunk];
      free := SpaceLeft(total, result);
    }
    pending := DenimChunk(data, count);
    FillingEnds(result, q, free, total, whole);
  }

  // ---- One payload over many carriers ----

  /** Chunks sent so far, and what is still pending with its next label. */
  datatype OrderedRun = OrderedRun(sent: seq<DenimChunk>, pending: DenimChunk)

  /** What one carrier returns of the payload in hand. */
  function Returned(payload: DenimChunk, cut: Cut): DenimChunk {
    if cut.rest == [] then DenimChunk([], payload.flags) else DenimChunk(cut.rest[0].bytes, cut.rest[0].order)
  }

  function OrderedCut(payload: DenimChunk, total: Budget): Cut {
    ClientFill([Pending(payload.chunk, payload.flags)], total - EMPTY_VEC_SIZE)
  }

  /** Carriers one after the other, each cutting what the one before it returned. */
  function RunOrdered(payload: DenimChunk, totals: seq<Budget>): OrderedRun
    decreases |totals|
  {
    if totals == [] then OrderedRun([], payload) else
    var before := RunOrdered(payload, totals[..|totals| - 1]);
    var cut := OrderedCut(before.pending, totals[|totals| - 1]);
    OrderedRun(before.sent + cut.chunks, Returned(before.pending, cut))
  }

  /** Chunks and pending data make up the payload. */
  predicate MakesUp(payload: DenimChunk, totals: seq<Budget>) {
    var run := RunOrdered(payload, totals);
    Bytes(NonDummy(run.sent)) + run.pending.chunk == payload.chunk
  }

  /** What one carrier takes of the payload in hand: bytes is what its non-dummy chunks
      hold. A piece labelled 1 reads like a dummy, and there is always something behind a
      piece. */
  ghost predicate TakesPart(data: seq<Byte>, order: int, bytes: seq<Byte>, data': seq<Byte>, order': int) {
    && |data'| <= |data|
    && var n := |data| - |data'|;
    && data' == data[n..]
    && if order' == order then bytes == data[..n]
       else order' == order - 1 && 0 < n < |data| && bytes == if order == 1 then [] else data[..n]
  }

  lemma OneOrderedCarrier(data: seq<Byte>, order: int, free: nat, data': seq<Byte>, order': int)
    requires var rest := ClientFill([Pending(data, order)], free).rest;
      if rest == [] then data' == [] && order' == order else rest == [Pending(data', order')]
    ensures TakesPart(data, order, Bytes(NonDummy(ClientFill([Pending(data, order)], free).chunks)), data', order')
    ensures data != [] && free > EMPTY_DENIMCHUNK_SIZE ==> |data'| < |data|
  {
    var q := [Pending(data, order)];
    var cut := ClientFill(q, free);
    if free < EMPTY_DENIMCHUNK_SIZE || data == [] || free == EMPTY_DENIMCHUNK_SIZE {
      assert NonDummy(cut.chunks) == [];
    } else if |data| <= free - EMPTY_DENIMCHUNK_SIZE {
      assert q[1..] == [];
      LastFinal(data, free - EMPTY_DENIMCHUNK_SIZE - |data|);
    } else {
      var size := free - EMPTY_DENIMCHUNK_SIZE;
      var c := DenimChunk(data[..size], order);
      assert cut.chunks == [c] && cut.rest == [Pending(data[size..], order - 1)];
      assert [c][1..] == [] && Bytes([c]) == c.chunk + [];
    }
  }

  lemma LastFinal(data: seq<Byte>, free: nat)
    ensures ClientFill([], free).rest == []
    ensures Bytes(NonDummy([FinalChunk(data)] + ClientFill([], free).chunks)) == data
  {
    var more := ClientFill([], free).chunks;
    assert NonDummy(more) == [];
    assert ([FinalChunk(data)] + more)[1..] == more;
    assert NonDummy([FinalChunk(data)] + more) == [FinalChunk(data)] + [];
    assert [FinalChunk(data)][1..] == [] && Bytes([FinalChunk(data)]) == data + [];
  }

  /** After some carriers: the non-dummy chunks hold what has left the payload, unless a
      piece went out under label 1. Every label spent has sent a byte, and one is left. */
  ghost predicate SentSoFar(payload: DenimChunk, bytes: seq<Byte>, pending: DenimChunk) {
    && |pending.chunk| <= |payload.chunk| && pending.flags <= payload.flags
    && var n := |payload.chunk| - |pending.chunk|; var labels := payload.flags - pending.flags;
    && pending.chunk == payload.chunk[n..]
    && labels <= n && (labels > 0 ==> labels < |payload.chunk|)
    && if pending.flags <= 0 < payload.flags then |bytes| < n else bytes == payload.chunk[..n]
  }

  lemma SentMore(payload: DenimChunk, bytes: seq<Byte>, pending: DenimChunk, more: seq<Byte>, pending': DenimChunk)
    requires SentSoFar(payload, bytes, pending)
    requires TakesPart(pending.chunk, pending.flags, more, pending'.chunk, pending'.flags)
    ensures SentSoFar(payload, bytes + more, pending')
  {
    var n, n' := |payload.chunk| - |pending.chunk|, |payload.chunk| - |pending'.chunk|;
    assert payload.chunk[..n'] == payload.chunk[..n] + pending.chunk[..n' - n];
  }

  lemma OneRestAtMost(data: seq<Byte>, order: int, free: nat)
    ensures |ClientFill([Pending(data, order)], free).rest| <= 1
  {
    if free >= EMPTY_DENIMCHUNK_SIZE && data != [] && |data| <= free - EMPTY_DENIMCHUNK_SIZE {
      LastFinal(data, free - EMPTY_DENIMCHUNK_SIZE - |data|);
      assert [Pending(data, order)][1..] == [];
    }
  }

  lemma CarrierTakes(pending: DenimChunk, total: Budget) returns (cut: Cut, left: DenimChunk)
    ensures cut == OrderedCut(pending, total) && left == Returned(pending, cut)
    ensures TakesPart(pending.chunk, pending.flags, Bytes(NonDummy(cut.chunks)), left.chunk, left.flags)
    ensures pending.chunk != [] && total >= USEFUL ==> |left.chunk| < |pending.chunk|
  {
    cut := OrderedCut(pending, total);
    OneRestAtMost(pending.chunk, pending.flags, total - EMPTY_VEC_SIZE);
    left := Returned(pending, cut);
    OneOrderedCarrier(pending.chunk, pending.flags, total - EMPTY_VEC_SIZE, left.chunk, left.flags);
  }

  lemma BytesJoined(x: seq<DenimChunk>, y: seq<DenimChunk>)
    ensures Bytes(NonDummy(x + y)) == Bytes(NonDummy(x)) + Bytes(NonDummy(y))
  {
    NonDummyConcat(x, y);
    BytesConcat(NonDummy(x), NonDummy(y));
  }

  lemma SentByCarrier(payload: DenimChunk, sent: seq<DenimChunk>, pending: DenimChunk, total: Budget)
    requires SentSoFar(payload, Bytes(NonDummy(sent)), pending)
    ensures var cut := OrderedCut(pending, total); var left := Returned(pending, cut);
      && SentSoFar(payload, Bytes(NonDummy(sent + cut.chunks)), left)
      && |left.chunk| <= |pending.chunk|
      && (pending.chunk != [] && total >= USEFUL ==> |left.chunk| < |pending.chunk|)
  {
    var cut, left := CarrierTakes(pending, total);
    SentMore(payload, Bytes(NonDummy(sent)), pending, Bytes(NonDummy(cut.chunks)), left);
    BytesJoined(sent, cut.chunks);
  }

  lemma {:induction false} RunSends(payload: DenimChunk, totals: seq<Budget>)
    ensures var run := RunOrdered(payload, totals); SentSoFar(payload, Bytes(NonDummy(run.sent)), run.pending)
    decreases |totals|
  {
    if totals != [] {
      var n := |totals| - 1;
      RunSends(payload, totals[..n]);
      var run := RunOrdered(payload, totals[..n]);
      SentByCarrier(payload, run.sent, run.pending, totals[n]);
    }
  }

  /** Every useful carrier takes at least a byte. */
  lemma {:induction false} RunEmpties(payload: DenimChunk, totals: seq<Budget>)
    requires AtLeast(totals, USEFUL)
    ensures var left := |RunOrdered(payload, totals).pending.chunk|; left == 0 || left + |totals| <= |payload.chunk|
    decreases |totals|
  {
    if totals != [] {
      var n := |totals| - 1;
      RunEmpties(payload, totals[..n]);
      RunSends(payload, totals[..n]);
      var run := RunOrdered(payload, totals[..n]);
      SentByCarrier(payload, run.sent, run.pending, totals[n]);
    }
  }

  /** A run loses bytes exactly when a piece of it went out under label 1. */
  lemma WhatIsSent(payload: DenimChunk, totals: seq<Budget>)
    ensures var p := RunOrdered(payload, totals).pending;
      && |p.chunk| <= |payload.chunk| && p.chunk == payload.chunk[|payload.chunk| - |p.chunk|..]
      && p.flags <= payload.flags
      && (MakesUp(payload, totals) <==> !(p.flags <= 0 < payload.flags))
      && (p.flags <= 0 < payload.flags ==> payload.flags < |payload.chunk|)
  {
    RunSends(payload, totals);
    var run := RunOrdered(payload, totals);
    PartSent(payload, Bytes(NonDummy(run.sent)), run.pending);
  }

  lemma PartSent(payload: DenimChunk, bytes: seq<Byte>, p: DenimChunk)
    requires SentSoFar(payload, bytes, p)
    ensures |p.chunk| <= |payload.chunk| && p.chunk == payload.chunk[|payload.chunk| - |p.chunk|..]
    ensures p.flags <= payload.flags && (p.flags <= 0 < payload.flags ==> payload.flags < |payload.chunk|)
    ensures bytes + p.chunk == payload.chunk <==> !(p.flags <= 0 < payload.flags)
  {
    var n := |payload.chunk| - |p.chunk|;
    assert payload.chunk[..n] + p.chunk == payload.chunk;
  }

  /** Carriers with room for one byte each. */
  function Smallest(n: nat): seq<Budget> { seq(n, _ => USEFUL) }

  lemma {:induction false} ByteByByte(payload: DenimChunk, n: nat)
    requires n < |payload.chunk|
    ensures RunOrdered(payload, Smallest(n)).pending == DenimChunk(payload.chunk[n..], payload.flags - n)
  {
    if n > 0 {
      assert Smallest(n)[..n - 1] == Smallest(n - 1) && Smallest(n)[n - 1] == USEFUL;
      ByteByByte(payload, n - 1);
      var before := payload.chunk[n - 1..];
      assert before[1..] == payload.chunk[n..];
    }
  }

  /** When a payload can be cut safely with create_ordered_chunks: over every list of carriers
      chunks and pending data make it up if and only if its label is not positive, or it has
      no more bytes than that label. Payloads made by PayloadData::new start at 0. */
  lemma OrderedExactly(payload: DenimChunk)
    ensures (forall totals: seq<Budget> :: MakesUp(payload, totals))
      <==> payload.flags <= 0 || |payload.chunk| <= payload.flags
  {
    forall totals: seq<Budget> ensures MakesUp(payload, totals) || 0 < payload.flags < |payload.chunk| {
      WhatIsSent(payload, totals);
    }
    if 0 < payload.flags < |payload.chunk| {
      ByteByByte(payload, payload.flags);
      WhatIsSent(payload, Smallest(payload.flags));
      assert !MakesUp(payload, Smallest(payload.flags));
    }
  }

  /** create_ordered_chunks called for one carrier after the other, always with the data it
      returned. Once there have been as many useful carriers as bytes, nothing is pending. */
  method SendOrdered(payload: DenimChunk, totals: seq<Budget>) returns (sent: seq<DenimChunk>, pending: DenimChunk)
    ensures OrderedRun(sent, pending) == RunOrdered(payload, totals)
    ensures payload.flags <= 0 || |payload.chunk| <= payload.flags ==>
      Bytes(NonDummy(sent)) + pending.chunk == payload.chunk
    ensures AtLeast(totals, USEFUL) && |totals| >= |payload.chunk| ==> pending.chunk == []
  {
    sent, pending := [], payload;
    for n := 0 to |totals|
      invariant OrderedRun(sent, pending) == RunOrdered(payload, totals[..n])
    {
      assert totals[..n + 1][..n] == totals[..n];
      var chunks, free, left := CreateOrderedChunks(totals[n], pending);
      sent, pending := sent + chunks, left;
    }
    assert totals[..|totals|] == totals;
    WhatIsSent(payload, totals);
    if AtLeast(totals, USEFUL) { RunEmpties(payload, totals); }
  }
}
