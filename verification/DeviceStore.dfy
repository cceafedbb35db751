/** The two client tables that carry the transport's state. Rows are kept in rowid order,
    the order in which the program's selects read them. */
module DeviceStore {
  import opened Bincode
  import opened Chunks
  import opened Cutting

  datatype PayloadRow = PayloadRow(id: nat, content: seq<Byte>, chunkCount: int)
  datatype ChunkRow = ChunkRow(id: nat, chunk: seq<Byte>, flags: int)

  function AsPending(r: PayloadRow): Pending { Pending(r.content, r.chunkCount) }
  function AsChunk(r: ChunkRow): DenimChunk { DenimChunk(r.chunk, r.flags) }

  function PendingsOf(rows: seq<PayloadRow>): (q: seq<Pending>)
    ensures |q| == |rows| && forall i :: 0 <= i < |rows| ==> q[i] == AsPending(rows[i])
  {
    seq(|rows|, i requires 0 <= i < |rows| => AsPending(rows[i]))
  }

  function ChunksOf(rows: seq<ChunkRow>): (cs: seq<DenimChunk>)
    ensures |cs| == |rows| && forall i :: 0 <= i < |rows| ==> cs[i] == AsChunk(rows[i])
  {
    seq(|rows|, i requires 0 <= i < |rows| => AsChunk(rows[i]))
  }

  ghost predicate PayloadIdsRise(rows: seq<PayloadRow>) {
    forall i, j :: 0 <= i < j < |rows| ==> rows[i].id < rows[j].id
  }

  ghost predicate ChunkIdsRise(rows: seq<ChunkRow>) {
    forall i, j :: 0 <= i < j < |rows| ==> rows[i].id < rows[j].id
  }

  /** UPDATE ... WHERE id = id. */
  function UpdateWhere(rows: seq<PayloadRow>, id: nat, content: seq<Byte>, count: int): seq<PayloadRow> {
    if rows == [] then []
    else [if rows[0].id == id then PayloadRow(id, content, count) else rows[0]]
         + UpdateWhere(rows[1..], id, content, count)
  }

  /** DELETE ... WHERE id = id. */
  function DeleteWhere(rows: seq<PayloadRow>, id: nat): seq<PayloadRow> {
    if rows == [] then [] else (if rows[0].id == id then [] else [rows[0]]) + DeleteWhere(rows[1..], id)
  }

  function DeleteChunkWhere(rows: seq<ChunkRow>, id: nat): seq<ChunkRow> {
    if rows == [] then [] else (if rows[0].id == id then [] else [rows[0]]) + DeleteChunkWhere(rows[1..], id)
  }

  lemma {:induction false} OtherIds(rows: seq<PayloadRow>, id: nat, content: seq<Byte>, count: int)
    requires forall i :: 0 <= i < |rows| ==> rows[i].id != id
    ensures UpdateWhere(rows, id, content, count) == rows && DeleteWhere(rows, id) == rows
  {
    if rows != [] { OtherIds(rows[1..], id, content, count); assert rows == [rows[0]] + rows[1..]; }
  }

  /** An id names one row, wherever it is. */
  lemma {:induction false} RowAt(rows: seq<PayloadRow>, i: nat, content: seq<Byte>, count: int)
    requires i < |rows| && PayloadIdsRise(rows)
    ensures UpdateWhere(rows, rows[i].id, content, count) == rows[i := PayloadRow(rows[i].id, content, count)]
    ensures DeleteWhere(rows, rows[i].id) == rows[..i] + rows[i + 1..]
  {
    if i == 0 {
      OtherIds(rows[1..], rows[0].id, content, count);
    } else {
      RowAt(rows[1..], i - 1, content, count);
      var row := PayloadRow(rows[i].id, content, count);
      assert rows[i := row] == [rows[0]] + rows[1..][i - 1 := row];
      assert rows[..i] + rows[i + 1..] == [rows[0]] + (rows[1..][..i - 1] + rows[1..][i..]);
    }
  }

  lemma {:induction false} OtherChunkIds(rows: seq<ChunkRow>, id: nat)
    requires forall i :: 0 <= i < |rows| ==> rows[i].id != id
    ensures DeleteChunkWhere(rows, id) == rows
  {
    if rows != [] { OtherChunkIds(rows[1..], id); assert rows == [rows[0]] + rows[1..]; }
  }

  class Device {
    var payloads: seq<PayloadRow>
    var chunks: seq<ChunkRow>

    ghost predicate Valid()
      reads this
    {
      PayloadIdsRise(payloads) && ChunkIdsRise(chunks)
    }

    /** The sending queue. */
    function Outbox(): seq<Pending>
      reads this
    {
      PendingsOf(payloads)
    }

    /** Stored incoming chunks. */
    function Inbox(): seq<DenimChunk>
      reads this
    {
      ChunksOf(chunks)
    }

    constructor ()
      ensures Valid() && Outbox() == [] && Inbox() == []
    {
      payloads, chunks := [], [];
    }

    method GetDeniablePayload() returns (row: Option<PayloadRow>)
      ensures row == if payloads == [] then None else Some(payloads[0])
    {
      row := if payloads == [] then None else Some(payloads[0]);
    }

    /** With an id the row is rewritten; without one a row is added, always with count 0. */
    method StoreDeniablePayload(id: Option<nat>, count: int, content: seq<Byte>)
      requires Valid()
      modifies `payloads
      ensures Valid()
      ensures id.None? ==> Outbox() == old(Outbox()) + [Pending(content, 0)]
      ensures forall i :: 0 <= i < |old(payloads)| && id == Some(old(payloads)[i].id) ==>
        payloads == old(payloads)[i := PayloadRow(old(payloads)[i].id, content, count)]
      ensures id.Some? && old(payloads) != [] && old(payloads)[0].id == id.value ==>
        Outbox() == [Pending(content, count)] + old(Outbox())[1..] && payloads[0].id == id.value
      ensures id.Some? && (forall i :: 0 <= i < |old(payloads)| ==> old(payloads)[i].id != id.value) ==>
        payloads == old(payloads)
    {
      match id
      case Some(i) =>
        UpdateKeepsIds(payloads, i, content, count);
        forall j | 0 <= j < |payloads| && payloads[j].id == i
          ensures UpdateWhere(payloads, i, content, count) == payloads[j := PayloadRow(i, content, count)]
        {
          RowAt(payloads, j, content, count);
        }
        if forall j :: 0 <= j < |payloads| ==> payloads[j].id != i { OtherIds(payloads, i, content, count); }
        payloads := UpdateWhere(payloads, i, content, count);
      case None =>
        var next := if payloads == [] then 1 else payloads[|payloads| - 1].id + 1;
        payloads := payloads + [PayloadRow(next, content, 0)];
    }

    method RemoveDeniablePayload(id: nat)
      requires Valid()
      modifies `payloads
      ensures Valid()
      ensures forall i :: 0 <= i < |old(payloads)| && old(payloads)[i].id == id ==>
        payloads == old(payloads)[..i] + old(payloads)[i + 1..]
      ensures old(payloads) != [] && old(payloads)[0].id == id ==> Outbox() == old(Outbox())[1..]
      ensures (forall i :: 0 <= i < |old(payloads)| ==> old(payloads)[i].id != id) ==> payloads == old(payloads)
    {
      DeleteKeepsIds(payloads, id);
      forall j | 0 <= j < |payloads| && payloads[j].id == id
        ensures DeleteWhere(payloads, id) == payloads[..j] + payloads[j + 1..]
      {
        RowAt(payloads, j, [], 0);
      }
      if forall j :: 0 <= j < |payloads| ==> payloads[j].id != id { OtherIds(payloads, id, [], 0); }
      payloads := DeleteWhere(payloads, id);
    }

    /** Reads all rows, deleting each. */
    method GetAndRemoveIncomingChunks() returns (read: seq<DenimChunk>)
      requires Valid()
      modifies `chunks
      ensures Valid() && read == old(Inbox()) && Inbox() == []
    {
      var rows := chunks;
      read := [];
      for n := 0 to |rows|
        invariant chunks == rows[n..]
        invariant read == ChunksOf(rows[..n])
      {
        assert rows[n..][0] == rows[n] && rows[n..][1..] == rows[n + 1..];
        OtherChunkIds(rows[n + 1..], rows[n].id);
        read := read + [AsChunk(rows[n])];
        chunks := DeleteChunkWhere(chunks, rows[n].id);
      }
    }

    method StoreIncomingChunks(added: seq<DenimChunk>)
      requires Valid()
      modifies `chunks
      ensures Valid() && Inbox() == old(Inbox()) + added
    {
      for n := 0 to |added|
        invariant Valid() && Inbox() == old(Inbox()) + added[..n]
      {
        var next := if chunks == [] then 1 else chunks[|chunks| - 1].id + 1;
        chunks := chunks + [ChunkRow(next, added[n].chunk, added[n].flags)];
      }
    }
  }

  lemma {:induction false} UpdateKeepsIds(rows: seq<PayloadRow>, id: nat, content: seq<Byte>, count: int)
    requires PayloadIdsRise(rows)
    ensures PayloadIdsRise(UpdateWhere(rows, id, content, count))
    ensures |UpdateWhere(rows, id, content, count)| == |rows|
    ensures forall i :: 0 <= i < |rows| ==> UpdateWhere(rows, id, content, count)[i].id == rows[i].id
  {
    if rows != [] { UpdateKeepsIds(rows[1..], id, content, count); }
  }

  lemma {:induction false} DeletedFrom(rows: seq<PayloadRow>, id: nat)
    ensures forall x :: x in DeleteWhere(rows, id) ==> x in rows
  {
    if rows != [] { DeletedFrom(rows[1..], id); }
  }

  lemma {:induction false} DeleteKeepsIds(rows: seq<PayloadRow>, id: nat)
    requires PayloadIdsRise(rows)
    ensures PayloadIdsRise(DeleteWhere(rows, id))
  {
    if rows != [] {
      DeleteKeepsIds(rows[1..], id);
      DeletedFrom(rows[1..], id);
      var r := DeleteWhere(rows[1..], id);
      forall i | 0 <= i < |r| ensures rows[0].id < r[i].id {
        assert r[i] in rows[1..];
        var j :| 0 <= j < |rows| - 1 && rows[1..][j] == r[i];
        assert rows[j + 1] == r[i];
      }
    }
  }
}
