/** The client's part: queueing payloads, attaching chunks to the messages of a request,
    and putting received chunks together. */
module Client {
  import opened Bincode
  import opened Chunks
  import opened Cutting
  import opened Streams
  import opened Assembly
  import opened Relay
  import opened DeviceStore
  import opened Chunker
  import opened DeniablePayloads
  import opened TwoHop

  /** Queues the payloads of one deniable message, one per device of the contact. */
  method SendDeniableMessage(device: Device, codec: Codec<DeniablePayload>, payloads: seq<DeniablePayload>)
    requires device.Valid()
    modifies device`payloads
    ensures device.Valid()
    ensures device.Outbox() == old(device.Outbox()) + Fresh(EncodeAll(codec, payloads))
  {
    for n := 0 to |payloads|
      invariant device.Valid()
      invariant device.Outbox() == old(device.Outbox()) + Fresh(EncodeAll(codec, payloads[..n]))
    {
      device.StoreDeniablePayload(None, 0, codec.enc(payloads[n]));
      assert payloads[..n + 1] == payloads[..n] + [payloads[n]];
      EncodeAllConcat(codec, payloads[..n], [payloads[n]]);
      assert Fresh(EncodeAll(codec, payloads[..n + 1]))
          == Fresh(EncodeAll(codec, payloads[..n])) + [Pending(codec.enc(payloads[n]), 0)];
    }
    assert payloads[..|payloads|] == payloads;
  }

  /** The chunk area of one message of a request. */
  datatype Area = Area(chunks: seq<DenimChunk>, ballast: seq<Byte>)

  function AllChunks(areas: seq<Area>): seq<DenimChunk> {
    if areas == [] then [] else areas[0].chunks + AllChunks(areas[1..])
  }

  lemma {:induction false} AllChunksPush(areas: seq<Area>, a: Area)
    ensures AllChunks(areas + [a]) == AllChunks(areas) + a.chunks
  {
    if areas == [] {
      assert areas + [a] == [a];
      assert [a][1..] == [];
    } else {
      assert (areas + [a])[1..] == areas[1..] + [a];
      AllChunksPush(areas[1..], a);
    }
  }

  lemma {:induction false} ClientRunPush(q: seq<Pending>, totals: seq<Budget>, total: Budget)
    ensures var r := ClientRun(q, totals); var cut := ClientFill(r.rest, total - EMPTY_VEC_SIZE);
            ClientRun(q, totals + [total]) == CutRun(r.chunks + cut.chunks, cut.rest)
    decreases |totals|
  {
    if totals == [] {
      RunOfOne(q, total);
      assert totals + [total] == [total];
    } else {
      var first := ClientFill(q, totals[0] - EMPTY_VEC_SIZE);
      var more := ClientRun(first.rest, totals[1..]);
      assert (totals + [total])[0] == totals[0] && (totals + [total])[1..] == totals[1..] + [total];
      ClientRunPush(first.rest, totals[1..], total);
      Regroup(first.chunks, more.chunks, ClientFill(more.rest, total - EMPTY_VEC_SIZE).chunks);
    }
  }

  lemma RunOfOne(q: seq<Pending>, total: Budget)
    ensures var cut := ClientFill(q, total - EMPTY_VEC_SIZE); ClientRun(q, [total]) == CutRun([] + cut.chunks, cut.rest)
  {
    var cut := ClientFill(q, total - EMPTY_VEC_SIZE);
    assert [total][1..] == [] && ClientRun(cut.rest, []) == CutRun([], cut.rest);
    assert cut.chunks + [] == [] + cut.chunks;
  }

  /** The areas cut so far, and the queue they leave. */
  ghost predicate Attached(q: seq<Pending>, totals: seq<Budget>, areas: seq<Area>, q': seq<Pending>) {
    && |areas| == |totals|
    && CutRun(AllChunks(areas), q') == ClientRun(q, totals)
    && forall i :: 0 <= i < |totals| ==> |Serialize(areas[i].chunks)| + |areas[i].ballast| == totals[i]
  }

  lemma AttachStep(q: seq<Pending>, totals: seq<Budget>, areas: seq<Area>, q1: seq<Pending>,
                   total: Budget, area: Area, q2: seq<Pending>)
    requires Attached(q, totals, areas, q1)
    requires Cut(area.chunks, |area.ballast|, q2) == ClientFill(q1, total - EMPTY_VEC_SIZE)
    requires |Serialize(area.chunks)| + |area.ballast| == total
    ensures Attached(q, totals + [total], areas + [area], q2)
  {
    ClientRunPush(q, totals, total);
    AllChunksPush(areas, area);
  }

  /** One message per device of the contact, each with its own budget. Every chunk area
      fills its budget to the byte. */
  method SendMessage(device: Device, totals: seq<Budget>) returns (areas: seq<Area>)
    requires device.Valid()
    modifies device`payloads
    ensures device.Valid() && Attached(old(device.Outbox()), totals, areas, device.Outbox())
  {
    areas := [];
    for n := 0 to |totals|
      invariant device.Valid() && Attached(old(device.Outbox()), totals[..n], areas, device.Outbox())
    {
      ghost var q := device.Outbox();
      var chunks, free := CreateChunks(totals[n], device);
      AttachStep(old(device.Outbox()), totals[..n], areas, q, totals[n], Area(chunks, Zeros(free)), device.Outbox());
      assert totals[..n + 1] == totals[..n] + [totals[n]];
      areas := areas + [Area(chunks, Zeros(free))];
    }
    assert totals[..|totals|] == totals;
  }

  /** Reassembly. The stored chunks are read only when a final chunk has come in; what is
      left over is stored. None is the panic on a payload that cannot be deserialized: the
      stored chunks are gone by then. */
  method HandleIncomingChunks(device: Device, codec: Codec<DeniablePayload>, newChunks: seq<DenimChunk>)
    returns (payloads: Option<seq<DeniablePayload>>)
    requires device.Valid()
    modifies device`chunks
    ensures device.Valid()
    ensures var r := Handle(old(device.Inbox()), newChunks);
      payloads == DecodeAll(codec, r.payloads) && device.Inbox() == if payloads.Some? then r.stored else []
  {
    ghost var inbox := device.Inbox();
    var chunks := [];
    if HasFinal(newChunks) {
      chunks := device.GetAndRemoveIncomingChunks();
    }
    ghost var start := chunks;
    var read := [];
    ghost var data, kept := [], device.Inbox();
    for n := 0 to |newChunks|
      invariant device.Valid() && device.Inbox() == kept
      invariant DecodeAll(codec, data) == Some(read)
      invariant AssembleUnfiltered(newChunks, start)
        == Assembled(data + AssembleUnfiltered(newChunks[n..], chunks).payloads,
                     AssembleUnfiltered(newChunks[n..], chunks).pending)
    {
      assert newChunks[n..][0] == newChunks[n] && newChunks[n..][1..] == newChunks[n + 1..];
      var chunk := newChunks[n];
      if chunk.IsFinal() {
        chunks := SortDesc(chunks) + [chunk];
        var bytes := Bytes(chunks);
        ghost var more := AssembleUnfiltered(newChunks[n + 1..], []).payloads;
        assert data + ([bytes] + more) == data + [bytes] + more;
        DecodeNext(codec, data, bytes, more);
        var payload := codec.dec(bytes);
        if payload.None? { return None; }
        read, data := read + [payload.value], data + [bytes];
        chunks := [];
      } else {
        chunks := chunks + [chunk];
      }
    }
    payloads := Some(read);
    assert newChunks[|newChunks|..] == [] && data + [] == data;
    if !HasFinal(newChunks) { KeepsData(newChunks, []); assert [] + newChunks == newChunks; }
    if chunks != [] {
      device.StoreIncomingChunks(chunks);
    } else {
      assert inbox + chunks == inbox;
    }
    assert [] + chunks == chunks;
  }

  /** The chunk part of receiving a message. */
  method ReceiveMessage(device: Device, codec: Codec<DeniablePayload>, carried: seq<DenimChunk>)
    returns (payloads: Option<seq<DeniablePayload>>)
    requires device.Valid()
    modifies device`chunks
    ensures device.Valid()
    ensures var r := Handle(old(device.Inbox()), NonDummy(carried));
      payloads == DecodeAll(codec, r.payloads) && device.Inbox() == if payloads.Some? then r.stored else []
  {
    var chunks := NonDummy(carried);
    payloads := Some([]);
    if chunks != [] {
      payloads := HandleIncomingChunks(device, codec, chunks);
    } else {
      assert device.Inbox() + chunks == device.Inbox();
    }
  }
}
