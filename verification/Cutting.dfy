/** What the two fill loops compute: the client's over its payload table and the
    server's over its byte queue. Each is a function from a queue and a budget. */
module Cutting {
  import opened Bincode
  import opened Chunks

  /** A payload not yet fully sent, with the label its next data chunk gets. */
  datatype Pending = Pending(bytes: seq<Byte>, order: int)

  /** Chunks cut, budget left over as ballast, and the queue that remains. */
  datatype Cut = Cut(chunks: seq<DenimChunk>, left: nat, rest: seq<Pending>)

  predicate AllNonEmpty(q: seq<Pending>) {
    forall i :: 0 <= i < |q| ==> q[i].bytes != []
  }

  function FinalChunk(bytes: seq<Byte>): DenimChunk { DenimChunk(bytes, ToFlags(Final)) }

  /** The client's loop. A payload row without bytes is never sent nor skipped. */
  function ClientFill(q: seq<Pending>, free: nat): Cut
    decreases free
  {
    if free < EMPTY_DENIMCHUNK_SIZE then Cut([], free, q) else
    var size := free - EMPTY_DENIMCHUNK_SIZE;
    if q != [] && q[0].bytes != [] && size != 0 then
      if |q[0].bytes| <= size then
        var more := ClientFill(q[1..], size - |q[0].bytes|);
        Cut([FinalChunk(q[0].bytes)] + more.chunks, more.left, more.rest)
      else
        Cut([DenimChunk(q[0].bytes[..size], q[0].order)], 0,
            [Pending(q[0].bytes[size..], q[0].order - 1)] + q[1..])
    else
      Cut([DummyChunk(size)], 0, q)
  }

  /** What one dequeue takes off the head of the byte queue. */
  datatype Taken = Taken(data: seq<Byte>, flags: int, rest: seq<Pending>)

  function TakeBytes(q: seq<Pending>, amount: nat): Taken {
    if q == [] then Taken([], ToFlags(Dummy), q)
    else if amount < |q[0].bytes| then
      Taken(q[0].bytes[..amount], q[0].order, [Pending(q[0].bytes[amount..], q[0].order - 1)] + q[1..])
    else Taken(q[0].bytes, ToFlags(Final), q[1..])
  }

  /** The server's loop. */
  function ServerFill(q: seq<Pending>, free: nat): Cut
    decreases free
  {
    if free < EMPTY_DENIMCHUNK_SIZE then Cut([], free, q) else
    var size := free - EMPTY_DENIMCHUNK_SIZE;
    var t := TakeBytes(q, size);
    if t.data == [] then Cut([DummyChunk(size)], 0, t.rest)
    else
      var more := ServerFill(t.rest, size - |t.data|);
      Cut([DenimChunk(t.data, t.flags)] + more.chunks, more.left, more.rest)
  }

  // ---- A description of the result without the loop ----

  function PrefixCost(q: seq<Pending>, k: nat): nat
    requires k <= |q|
  {
    if k == 0 then 0 else EMPTY_DENIMCHUNK_SIZE + |q[0].bytes| + PrefixCost(q[1..], k - 1)
  }

  /** The head of q keeps its bytes but loses a label. */
  function Burnt(q: seq<Pending>): seq<Pending> {
    if q == [] then q else [q[0].(order := q[0].order - 1)] + q[1..]
  }

  /** How the room left after the whole payloads is used: a piece of the next payload if
      a byte of it fits, a dummy if a chunk header does, else ballast. burns says whether
      a bare header costs the next payload a label. */
  ghost predicate Remainder(q: seq<Pending>, room: nat, cut: Cut, burns: bool) {
    if room < EMPTY_DENIMCHUNK_SIZE then
      cut == Cut([], room, q)
    else
      var size := room - EMPTY_DENIMCHUNK_SIZE;
      if q != [] && size > 0 then
        && size < |q[0].bytes|
        && cut == Cut([DenimChunk(q[0].bytes[..size], q[0].order)], 0,
                      [Pending(q[0].bytes[size..], q[0].order - 1)] + q[1..])
      else
        cut == Cut([DummyChunk(size)], 0, if burns then Burnt(q) else q)
  }

  /** cut sends the first k payloads whole and uses what is left as Remainder says. */
  ghost predicate Greedy(q: seq<Pending>, free: nat, cut: Cut, k: nat, burns: bool) {
    && k <= |q| && k <= |cut.chunks|
    && PrefixCost(q, k) <= free
    && (forall i :: 0 <= i < k ==> cut.chunks[i] == FinalChunk(q[i].bytes))
    && Remainder(q[k..], free - PrefixCost(q, k), cut.(chunks := cut.chunks[k..]), burns)
  }

  lemma {:induction false} ClientFillGreedy(q: seq<Pending>, free: nat) returns (k: nat)
    requires AllNonEmpty(q)
    ensures Greedy(q, free, ClientFill(q, free), k, false)
  {
    k := 0;
    if free >= EMPTY_DENIMCHUNK_SIZE && q != [] && 0 < |q[0].bytes| <= free - EMPTY_DENIMCHUNK_SIZE {
      var j := ClientFillGreedy(q[1..], free - EMPTY_DENIMCHUNK_SIZE - |q[0].bytes|);
      k := j + 1;
      GreedyShift(q, free, ClientFill(q, free), j, false);
    }
  }

  lemma {:induction false} ServerFillGreedy(q: seq<Pending>, free: nat) returns (k: nat)
    requires AllNonEmpty(q)
    ensures Greedy(q, free, ServerFill(q, free), k, true)
  {
    k := 0;
    if free >= EMPTY_DENIMCHUNK_SIZE && q != [] {
      var size := free - EMPTY_DENIMCHUNK_SIZE;
      if |q[0].bytes| <= size {
        var j := ServerFillGreedy(q[1..], size - |q[0].bytes|);
        k := j + 1;
        GreedyShift(q, free, ServerFill(q, free), j, true);
      } else {
        assert size == 0 ==> q[0].bytes[0..] == q[0].bytes;
        assert size > 0 ==> ServerFill(TakeBytes(q, size).rest, 0).chunks == [];
      }
    }
  }

  /** One more whole payload in front. */
  lemma GreedyShift(q: seq<Pending>, free: nat, cut: Cut, j: nat, burns: bool)
    requires q != [] && EMPTY_DENIMCHUNK_SIZE + |q[0].bytes| <= free
    requires cut.chunks != [] && cut.chunks[0] == FinalChunk(q[0].bytes)
    ensures Greedy(q, free, cut, j + 1, burns) <==>
      Greedy(q[1..], free - EMPTY_DENIMCHUNK_SIZE - |q[0].bytes|, cut.(chunks := cut.chunks[1..]), j, burns)
  {
    if j < |q| && j < |cut.chunks| {
      assert q[1..][j..] == q[j + 1..];
      assert cut.chunks[1..][j..] == cut.chunks[j + 1..];
      assert (forall i :: 0 <= i < j + 1 ==> cut.chunks[i] == FinalChunk(q[i].bytes)) <==>
             (forall i :: 0 <= i < j ==> cut.chunks[1..][i] == FinalChunk(q[1..][i].bytes)) by {
        if forall i :: 0 <= i < j ==> cut.chunks[1..][i] == FinalChunk(q[1..][i].bytes) {
          forall i | 0 <= i < j + 1 ensures cut.chunks[i] == FinalChunk(q[i].bytes) {
            if i > 0 { assert cut.chunks[1..][i - 1] == FinalChunk(q[1..][i - 1].bytes); }
          }
        }
      }
    }
  }

  /** A whole payload goes out first exactly when it fits. */
  lemma GreedyHead(q: seq<Pending>, free: nat, cut: Cut, k: nat, burns: bool)
    requires AllNonEmpty(q)
    requires Greedy(q, free, cut, k, burns)
    ensures k > 0 <==> q != [] && EMPTY_DENIMCHUNK_SIZE + |q[0].bytes| <= free
    ensures k > 0 ==> cut.chunks == [FinalChunk(q[0].bytes)] + cut.chunks[1..]
  {
    if k > 0 {
      assert PrefixCost(q, k) >= EMPTY_DENIMCHUNK_SIZE + |q[0].bytes|;
    } else {
      assert q[0..] == q && cut.chunks[0..] == cut.chunks;
    }
  }

  lemma GreedyRemainder(q: seq<Pending>, free: nat, cut: Cut, burns: bool)
    ensures Greedy(q, free, cut, 0, burns) <==> Remainder(q, free, cut, burns)
  {
    assert q[0..] == q && cut.chunks[0..] == cut.chunks;
  }

  lemma GreedyTail(q: seq<Pending>, free: nat, cut: Cut, k: nat, burns: bool) returns (tail: Cut)
    requires AllNonEmpty(q) && k > 0 && Greedy(q, free, cut, k, burns)
    ensures q != [] && EMPTY_DENIMCHUNK_SIZE + |q[0].bytes| <= free
    ensures Greedy(q[1..], free - EMPTY_DENIMCHUNK_SIZE - |q[0].bytes|, tail, k - 1, burns)
    ensures cut == Cut([FinalChunk(q[0].bytes)] + tail.chunks, tail.left, tail.rest)
  {
    GreedyHead(q, free, cut, k, burns);
    GreedyShift(q, free, cut, k - 1, burns);
    tail := cut.(chunks := cut.chunks[1..]);
  }

  /** Greedy leaves no choice. */
  lemma {:induction false} GreedyUnique(q: seq<Pending>, free: nat, a: Cut, j: nat, b: Cut, k: nat, burns: bool)
    requires AllNonEmpty(q)
    requires Greedy(q, free, a, j, burns) && Greedy(q, free, b, k, burns)
    ensures a == b
  {
    GreedyHead(q, free, a, j, burns);
    GreedyHead(q, free, b, k, burns);
    if j > 0 {
      var a' := GreedyTail(q, free, a, j, burns);
      var b' := GreedyTail(q, free, b, k, burns);
      GreedyUnique(q[1..], free - EMPTY_DENIMCHUNK_SIZE - |q[0].bytes|, a', j - 1, b', k - 1, burns);
    } else {
      GreedyLast(q, free, a, b, burns);
    }
  }

  lemma GreedyLast(q: seq<Pending>, free: nat, a: Cut, b: Cut, burns: bool)
    requires Greedy(q, free, a, 0, burns) && Greedy(q, free, b, 0, burns)
    ensures a == b
  {
    GreedyRemainder(q, free, a, burns);
    GreedyRemainder(q, free, b, burns);
  }

  /** Each loop is characterised by the loop-free description. */
  lemma FillIsGreedy(q: seq<Pending>, free: nat, cut: Cut)
    requires AllNonEmpty(q)
    ensures cut == ClientFill(q, free) <==> exists k :: Greedy(q, free, cut, k, false)
    ensures cut == ServerFill(q, free) <==> exists k :: Greedy(q, free, cut, k, true)
  {
    var c := ClientFillGreedy(q, free);
    var s := ServerFillGreedy(q, free);
    if k :| Greedy(q, free, cut, k, false) { GreedyUnique(q, free, cut, k, ClientFill(q, free), c, false); }
    if k :| Greedy(q, free, cut, k, true) { GreedyUnique(q, free, cut, k, ServerFill(q, free), s, true); }
  }

  // ---- Exact fill ----

  lemma {:induction false} ClientFillExact(q: seq<Pending>, free: nat)
    ensures var cut := ClientFill(q, free);
            Cost(cut.chunks) + cut.left == free && cut.left < EMPTY_DENIMCHUNK_SIZE
    decreases free
  {
    if free >= EMPTY_DENIMCHUNK_SIZE && q != [] && 0 < |q[0].bytes| <= free - EMPTY_DENIMCHUNK_SIZE {
      var more := ClientFill(q[1..], free - EMPTY_DENIMCHUNK_SIZE - |q[0].bytes|);
      ClientFillExact(q[1..], free - EMPTY_DENIMCHUNK_SIZE - |q[0].bytes|);
      assert ([FinalChunk(q[0].bytes)] + more.chunks)[1..] == more.chunks;
    }
  }

  lemma {:induction false} ServerFillExact(q: seq<Pending>, free: nat)
    ensures var cut := ServerFill(q, free);
            Cost(cut.chunks) + cut.left == free && cut.left < EMPTY_DENIMCHUNK_SIZE
    decreases free
  {
    if free >= EMPTY_DENIMCHUNK_SIZE {
      var size := free - EMPTY_DENIMCHUNK_SIZE;
      var t := TakeBytes(q, size);
      if t.data != [] {
        var more := ServerFill(t.rest, size - |t.data|);
        ServerFillExact(t.rest, size - |t.data|);
        assert ([DenimChunk(t.data, t.flags)] + more.chunks)[1..] == more.chunks;
      }
    }
  }

  /** What both loops promise on the wire: the serialized chunk list and the ballast
      together fill the budget exactly, and the list is whole payloads followed by at
      most one piece or dummy. */
  lemma ExactFill(q: seq<Pending>, total: nat, cut: Cut)
    requires total >= EMPTY_VEC_SIZE
    requires cut == ClientFill(q, total - EMPTY_VEC_SIZE) || cut == ServerFill(q, total - EMPTY_VEC_SIZE)
    ensures |Serialize(cut.chunks)| + cut.left == total
    ensures cut.left < EMPTY_DENIMCHUNK_SIZE
    ensures FinalsFirst(cut.chunks)
    ensures |cut.chunks| * EMPTY_DENIMCHUNK_SIZE <= total - EMPTY_VEC_SIZE
  {
    var free := total - EMPTY_VEC_SIZE;
    SerializedSize(cut.chunks);
    ClientFillExact(q, free);
    ServerFillExact(q, free);
    CostOfMany(cut.chunks);
    ClientFinalsFirst(q, free);
    ServerFinalsFirst(q, free);
  }

  /** Only the last chunk can be other than a final one. */
  ghost predicate FinalsFirst(cs: seq<DenimChunk>) {
    forall i :: 0 <= i < |cs| - 1 ==> cs[i].IsFinal()
  }

  lemma FinalInFront(c: DenimChunk, cs: seq<DenimChunk>)
    requires c.IsFinal() && FinalsFirst(cs)
    ensures FinalsFirst([c] + cs)
  {
    forall i | 0 <= i < |[c] + cs| - 1 ensures ([c] + cs)[i].IsFinal() {
      assert i > 0 ==> ([c] + cs)[i] == cs[i - 1];
    }
  }

  lemma {:induction false} ClientFinalsFirst(q: seq<Pending>, free: nat)
    ensures FinalsFirst(ClientFill(q, free).chunks)
    decreases free
  {
    if free >= EMPTY_DENIMCHUNK_SIZE && q != [] && 0 < |q[0].bytes| <= free - EMPTY_DENIMCHUNK_SIZE {
      var left := free - EMPTY_DENIMCHUNK_SIZE - |q[0].bytes|;
      ClientFinalsFirst(q[1..], left);
      FinalInFront(FinalChunk(q[0].bytes), ClientFill(q[1..], left).chunks);
    }
  }

  lemma {:induction false} ServerFinalsFirst(q: seq<Pending>, free: nat)
    ensures FinalsFirst(ServerFill(q, free).chunks)
    decreases free
  {
    if free >= EMPTY_DENIMCHUNK_SIZE {
      var size := free - EMPTY_DENIMCHUNK_SIZE;
      var t := TakeBytes(q, size);
      if t.data != [] {
        var more := ServerFill(t.rest, size - |t.data|);
        if |t.data| == |q[0].bytes| {
          ServerFinalsFirst(t.rest, size - |t.data|);
          FinalInFront(DenimChunk(t.data, t.flags), more.chunks);
        } else {
          assert more.chunks == [];
        }
      }
    }
  }

  lemma {:induction false} CostOfMany(cs: seq<DenimChunk>)
    ensures |cs| * EMPTY_DENIMCHUNK_SIZE <= Cost(cs)
  {
    if cs != [] { CostOfMany(cs[1..]); }
  }

  // ---- The two loops are the same cutter ----

  /** Same payload bytes in the same order; labels may differ. */
  ghost predicate SameBytes(a: seq<Pending>, b: seq<Pending>) {
    |a| == |b| && forall i :: 0 <= i < |a| ==> a[i].bytes == b[i].bytes
  }

  /** Same bytes and kinds; only the labels of data chunks may differ. */
  ghost predicate SameButLabels(a: seq<DenimChunk>, b: seq<DenimChunk>) {
    |a| == |b| && forall i :: 0 <= i < |a| ==>
      a[i].chunk == b[i].chunk && (a[i].flags == b[i].flags || (a[i].IsData() && b[i].IsData()))
  }

  /** Pieces get labels that count down from 0. */
  predicate LabelsSound(q: seq<Pending>) {
    (forall i :: 0 < i < |q| ==> q[i].order == 0) && (q != [] ==> q[0].order <= 0)
  }

  lemma ClientFillCases(q: seq<Pending>, free: nat)
    requires free >= EMPTY_DENIMCHUNK_SIZE && AllNonEmpty(q)
    ensures var size := free - EMPTY_DENIMCHUNK_SIZE; var cut := ClientFill(q, free);
            if q == [] || size == 0 then cut == Cut([DummyChunk(size)], 0, q)
            else if |q[0].bytes| <= size then
              var more := ClientFill(q[1..], size - |q[0].bytes|);
              cut == Cut([FinalChunk(q[0].bytes)] + more.chunks, more.left, more.rest)
            else cut == Cut([DenimChunk(q[0].bytes[..size], q[0].order)], 0,
                            [Pending(q[0].bytes[size..], q[0].order - 1)] + q[1..])
  {
  }

  lemma ServerFillCases(q: seq<Pending>, free: nat)
    requires free >= EMPTY_DENIMCHUNK_SIZE && AllNonEmpty(q)
    ensures var size := free - EMPTY_DENIMCHUNK_SIZE; var cut := ServerFill(q, free);
            if q == [] then cut == Cut([DummyChunk(size)], 0, [])
            else if |q[0].bytes| <= size then
              var more := ServerFill(q[1..], size - |q[0].bytes|);
              cut == Cut([FinalChunk(q[0].bytes)] + more.chunks, more.left, more.rest)
            else if size == 0 then cut == Cut([DummyChunk(0)], 0, Burnt(q))
            else cut == Cut([DenimChunk(q[0].bytes[..size], q[0].order)], 0,
                            [Pending(q[0].bytes[size..], q[0].order - 1)] + q[1..])
  {
    if q != [] {
      var size := free - EMPTY_DENIMCHUNK_SIZE;
      if size == 0 { assert q[0].bytes[0..] == q[0].bytes; }
      if 0 < size < |q[0].bytes| {
        assert ServerFill(TakeBytes(q, size).rest, 0).chunks == [];
      }
    }
  }

  lemma SameTails(a: seq<Pending>, b: seq<Pending>)
    requires a != [] && SameBytes(a, b) && AllNonEmpty(a) && LabelsSound(a) && LabelsSound(b)
    ensures SameBytes(a[1..], b[1..]) && AllNonEmpty(a[1..]) && LabelsSound(a[1..]) && LabelsSound(b[1..])
    ensures a[0].bytes == b[0].bytes
  {
  }

  lemma {:induction false} SameCutter(a: seq<Pending>, b: seq<Pending>, free: nat)
    requires SameBytes(a, b) && AllNonEmpty(a)
    requires LabelsSound(a) && LabelsSound(b)
    ensures SameButLabels(ClientFill(a, free).chunks, ServerFill(b, free).chunks)
    ensures ClientFill(a, free).left == ServerFill(b, free).left
    ensures SameBytes(ClientFill(a, free).rest, ServerFill(b, free).rest)
    decreases free
  {
    if free >= EMPTY_DENIMCHUNK_SIZE {
      var size := free - EMPTY_DENIMCHUNK_SIZE;
      assert AllNonEmpty(b) by {
        forall i | 0 <= i < |b| ensures b[i].bytes != [] { assert a[i].bytes != []; }
      }
      ClientFillCases(a, free);
      ServerFillCases(b, free);
      if a != [] && |a[0].bytes| <= size {
        SameTails(a, b);
        SameCutter(a[1..], b[1..], size - |a[0].bytes|);
      } else if a != [] && size > 0 {
        assert a[0].bytes == b[0].bytes;
      }
    }
  }

  lemma EndsBareBehind(c: DenimChunk, cs: seq<DenimChunk>)
    requires c.IsFinal()
    ensures EndsBare([c] + cs) <==> EndsBare(cs)
  {
    if cs != [] { assert ([c] + cs)[|cs|] == cs[|cs| - 1]; }
  }

  /** From equal queues a carrier is equal to the last label, and the only difference
      left behind is the label a bare header costs on the server. */
  lemma {:induction false} SameCarrier(q: seq<Pending>, free: nat)
    requires AllNonEmpty(q)
    ensures var c := ClientFill(q, free); var s := ServerFill(q, free);
            && s.chunks == c.chunks && s.left == c.left
            && s.rest == if EndsBare(c.chunks) then Burnt(c.rest) else c.rest
    decreases free
  {
    if free >= EMPTY_DENIMCHUNK_SIZE {
      var size := free - EMPTY_DENIMCHUNK_SIZE;
      ClientFillCases(q, free);
      ServerFillCases(q, free);
      if q != [] && |q[0].bytes| <= size {
        SameCarrier(q[1..], size - |q[0].bytes|);
        EndsBareBehind(FinalChunk(q[0].bytes), ClientFill(q[1..], size - |q[0].bytes|).chunks);
      } else {
        assert size > 0 ==> |DummyChunk(size).chunk| != |DummyChunk(0).chunk|;
      }
    }
  }

  /** The carrier's last chunk is a header with nothing in it. */
  predicate EndsBare(cs: seq<DenimChunk>) {
    cs != [] && cs[|cs| - 1] == DummyChunk(0)
  }

  lemma FirstEmpty(q: seq<Pending>) returns (i: nat)
    requires !AllNonEmpty(q)
    ensures i < |q| && q[i].bytes == [] && forall j :: 0 <= j < i ==> q[j].bytes != []
  {
    i := 0;
    while q[i].bytes != []
      invariant i < |q| && forall j :: 0 <= j < i ==> q[j].bytes != []
      decreases |q| - i
    {
      assert exists j :: i < j < |q| && q[j].bytes == [];
      i := i + 1;
    }
  }

  /** With room for the payloads before the first empty one and one more header, the client
      stops there and the server drops it. */
  lemma {:induction false} EmptySeparates(q: seq<Pending>, i: nat)
    requires i < |q| && q[i].bytes == [] && forall j :: 0 <= j < i ==> q[j].bytes != []
    ensures var free := PrefixCost(q, i) + EMPTY_DENIMCHUNK_SIZE;
      ClientFill(q, free).rest == q[i..] && ServerFill(q, free).rest == q[i + 1..]
  {
    if i == 0 {
      assert q[0..] == q;
    } else {
      EmptySeparates(q[1..], i - 1);
      assert q[1..][i - 1..] == q[i..] && q[1..][i..] == q[i + 1..];
      assert q[0].bytes != [];
    }
  }

  /** The two loops leave the same bytes behind at every budget exactly when no queued
      payload is empty: the client never gets past an empty one, the server drops it. */
  lemma SameCutterExactly(q: seq<Pending>)
    ensures AllNonEmpty(q) <==> forall free: nat :: SameBytes(ClientFill(q, free).rest, ServerFill(q, free).rest)
  {
    if AllNonEmpty(q) {
      forall free: nat ensures SameBytes(ClientFill(q, free).rest, ServerFill(q, free).rest) { SameCarrier(q, free); }
    } else {
      var i := FirstEmpty(q);
      EmptySeparates(q, i);
      var free := PrefixCost(q, i) + EMPTY_DENIMCHUNK_SIZE;
      assert |ClientFill(q, free).rest| != |ServerFill(q, free).rest|;
      assert !SameBytes(ClientFill(q, free).rest, ServerFill(q, free).rest);
    }
  }
}
