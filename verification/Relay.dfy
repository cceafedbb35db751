/** The two receiving machines: the server's chunk buffer, read one page at a time, and
    the client's chunk table. */
module Relay {
  import opened Bincode
  import opened Limits
  import opened Chunks
  import opened Cutting
  import opened Streams
  import opened Assembly

  function Min(a: nat, b: nat): nat { if a < b then a else b }

  /** Payloads handed on, and the chunks stored afterwards. */
  datatype Received = Received(payloads: seq<seq<Byte>>, stored: seq<DenimChunk>)

  /** Read a page, assemble it, put its unfinished chunks back behind what was not read. */
  function Flush(buffer: seq<DenimChunk>): Received {
    var n := Min(|buffer|, PAGE_SIZE);
    var a := Assemble(buffer[..n], []);
    Received(a.payloads, buffer[n..] + a.pending)
  }

  /** The server on the dummy-free chunks of one request. */
  function Accept(buffer: seq<DenimChunk>, cs: seq<DenimChunk>): Received {
    if HasFinal(cs) then Flush(buffer + cs) else Received([], buffer + cs)
  }

  /** The client on the dummy-free chunks of one message. */
  function Handle(stored: seq<DenimChunk>, cs: seq<DenimChunk>): Received {
    if HasFinal(cs) then
      var a := AssembleUnfiltered(cs, stored);
      Received(a.payloads, a.pending)
    else Received([], stored + cs)
  }

  // ---- Lemmas on chunks without a final one ----

  lemma {:induction false} AssembleData(cs: seq<DenimChunk>, pending: seq<DenimChunk>)
    requires !HasFinal(cs) && forall c :: c in cs ==> !c.IsDummy()
    ensures Assemble(cs, pending) == Assembled([], pending + cs)
  {
    AssembleLead(cs, |cs|, pending);
    assert cs[|cs|..] == [] && cs[..|cs|] == cs;
  }

  lemma {:induction false} PendingIsData(cs: seq<DenimChunk>, pending: seq<DenimChunk>)
    requires forall c :: c in pending ==> !c.IsFinal() && !c.IsDummy()
    ensures forall c :: c in Assemble(cs, pending).pending ==> !c.IsFinal() && !c.IsDummy()
    ensures forall c :: c in Assemble(cs, pending).pending ==> c in pending || c in cs
    decreases |cs|
  {
    if cs != [] {
      PendingIsData(cs[1..], if cs[0].IsDummy() then pending else if cs[0].IsFinal() then [] else pending + [cs[0]]);
    }
  }

  lemma {:induction false} SizeOfBag(a: seq<DenimChunk>, b: seq<DenimChunk>)
    requires multiset(a) == multiset(b)
    ensures |Bytes(a)| == |Bytes(b)|
  {
    if a == [] {
      assert |multiset(b)| == |b|;
    } else {
      assert a[0] in multiset(b);
      var i :| 0 <= i < |b| && b[i] == a[0];
      TakeFromBag(a, b, i);
      SizeOfBag(a[1..], b[..i] + b[i + 1..]);
      SizeWithout(b, i);
    }
  }

  lemma TakeFromBag(a: seq<DenimChunk>, b: seq<DenimChunk>, i: nat)
    requires multiset(a) == multiset(b) && a != [] && i < |b| && b[i] == a[0]
    ensures multiset(a[1..]) == multiset(b[..i] + b[i + 1..])
  {
    assert a == [a[0]] + a[1..];
    assert b == b[..i] + ([b[i]] + b[i + 1..]);
    assert multiset(a[1..]) == multiset(a) - multiset{a[0]};
    assert multiset(b[..i] + b[i + 1..]) == multiset(b) - multiset{b[i]};
  }

  lemma SizeWithout(b: seq<DenimChunk>, i: nat)
    requires i < |b|
    ensures |Bytes(b)| == |Bytes(b[..i] + b[i + 1..])| + |b[i].chunk|
  {
    assert b == b[..i] + ([b[i]] + b[i + 1..]);
    BytesConcat(b[..i], b[i + 1..]);
    BytesConcat(b[..i], [b[i]] + b[i + 1..]);
    assert ([b[i]] + b[i + 1..])[1..] == b[i + 1..];
  }

  lemma SizeOfSorted(s: seq<DenimChunk>)
    ensures |Bytes(SortDesc(s))| == |Bytes(s)|
  {
    SortDescSorts(s);
    SizeOfBag(SortDesc(s), s);
  }

  // ---- When a flush is faithful ----

  /** The page covers the buffer, or leaves nothing unfinished, or leaves nothing that
      finishes. */
  ghost predicate PageSuffices(buffer: seq<DenimChunk>) {
    || |buffer| <= PAGE_SIZE
    || Assemble(buffer[..PAGE_SIZE], []).pending == []
    || !HasFinal(buffer[PAGE_SIZE..])
  }

  ghost predicate NoDummies(cs: seq<DenimChunk>) { forall c :: c in cs ==> !c.IsDummy() }

  /** What a flush does to the buffer read as page + rest. */
  lemma FlushSplit(buffer: seq<DenimChunk>, page: seq<DenimChunk>, rest: seq<DenimChunk>)
    requires NoDummies(buffer)
    requires page == buffer[..Min(|buffer|, PAGE_SIZE)] && rest == buffer[Min(|buffer|, PAGE_SIZE)..]
    ensures var a := Assemble(page, []); var f := Flush(buffer);
            var z := Assemble(rest, a.pending); var y := Assemble(rest, []);
            && f == Received(a.payloads, rest + a.pending)
            && Assemble(buffer, []) == Assembled(a.payloads + z.payloads, z.pending)
            && Assemble(f.stored, []) == Assembled(y.payloads, y.pending + a.pending)
            && NoDummies(f.stored) && NoDummies(rest)
            && (forall c :: c in a.pending ==> c in buffer && !c.IsFinal())
  {
    var a, y := Assemble(page, []), Assemble(rest, []);
    assert buffer == page + rest;
    AssembleConcat(page, rest, []);
    PendingIsData(page, []);
    AssembleConcat(rest, a.pending, []);
    AssembleData(a.pending, y.pending);
    assert y.payloads + [] == y.payloads;
  }

  /** A buffer of one page is read whole. */
  lemma FlushWhole(buffer: seq<DenimChunk>)
    requires NoDummies(buffer) && |buffer| <= PAGE_SIZE
    ensures var all := Assemble(buffer, []); Flush(buffer) == Received(all.payloads, all.pending)
  {
    var a := Assemble(buffer, []);
    assert buffer[..|buffer|] == buffer && buffer[|buffer|..] + a.pending == a.pending;
  }

  /** A flush under PageSuffices hands on the right payloads and owes the right rest. */
  lemma FlushFaithful(buffer: seq<DenimChunk>)
    requires PageSuffices(buffer) && NoDummies(buffer)
    ensures var f := Flush(buffer); var all := Assemble(buffer, []); var later := Assemble(f.stored, []);
            && f.payloads + later.payloads == all.payloads
            && multiset(later.pending) == multiset(all.pending)
            && NoDummies(f.stored)
  {
    var n := Min(|buffer|, PAGE_SIZE);
    var page, rest := buffer[..n], buffer[n..];
    var a := Assemble(page, []);
    FlushSplit(buffer, page, rest);
    if !HasFinal(rest) {
      AssembleData(rest, []);
      AssembleData(rest, a.pending);
      assert [] + rest == rest;
    } else {
      assert a.pending == [];
    }
  }

  /** PageSuffices is exact: for a buffer whose data chunks carry bytes, the flush and a
      later complete reading together yield the buffer's payloads if and only if the
      page suffices. Otherwise a final chunk is assembled without its pending pieces. */
  lemma FlushFaithfulExactly(buffer: seq<DenimChunk>)
    requires NoDummies(buffer)
    requires forall c :: c in buffer && !c.IsFinal() ==> c.chunk != []
    ensures Flush(buffer).payloads + Assemble(Flush(buffer).stored, []).payloads == Assemble(buffer, []).payloads
            <==> PageSuffices(buffer)
  {
    if PageSuffices(buffer) {
      FlushFaithful(buffer);
    } else {
      var page, rest := buffer[..PAGE_SIZE], buffer[PAGE_SIZE..];
      var a := Assemble(page, []);
      FlushSplit(buffer, page, rest);
      PendingMatters(rest, a.pending);
      var x, y, z := a.payloads, Assemble(rest, []).payloads, Assemble(rest, a.pending).payloads;
      assert (x + y)[|x|..] == y && (x + z)[|x|..] == z;
    }
  }

  lemma PendingMatters(cs: seq<DenimChunk>, pending: seq<DenimChunk>)
    requires HasFinal(cs) && NoDummies(cs) && pending != [] && pending[0].chunk != []
    ensures Assemble(cs, []).payloads != Assemble(cs, pending).payloads
  {
    var i := FirstFinal(cs);
    AssembleLead(cs, i, []);
    AssembleLead(cs, i, pending);
    assert [] + cs[..i] == cs[..i];
    SizeOfSorted(cs[..i]);
    SizeOfSorted(pending + cs[..i]);
    BytesConcat(pending, cs[..i]);
    assert |Assemble(cs, pending).payloads[0]| > |Assemble(cs, []).payloads[0]|;
  }

  /** A payload of 101 bytes, sent one byte a carrier. */
  function LongPayload(n: nat): seq<Byte> { seq(n, _ => 1) }

  lemma {:induction false} OneByteCarriers(n: nat, order: int)
    ensures var q := [Pending(LongPayload(n + 1), order)]; var r := ClientRun(q, seq(n, _ => 21));
            && r.chunks == seq(n, i requires 0 <= i < n => DenimChunk([1], order - i))
            && r.rest == [Pending([1], order - n)]
  {
    var q := [Pending(LongPayload(n + 1), order)];
    if n == 0 {
      assert LongPayload(1) == [1];
    } else {
      var totals: seq<Budget> := seq(n, _ => 21);
      assert totals[1..] == seq(n - 1, _ => 21);
      assert LongPayload(n + 1)[..1] == [1] && LongPayload(n + 1)[1..] == LongPayload(n);
      OneByteCarriers(n - 1, order - 1);
      var cut := ClientFill(q, 13);
      assert cut == Cut([DenimChunk([1], order)], 0, [Pending(LongPayload(n), order - 1)]);
      assert ClientRun(q, totals).chunks == [DenimChunk([1], order)] + ClientRun(cut.rest, totals[1..]).chunks;
    }
  }

  /** The page limit is a real limit: a 101-byte payload sent over 101 smallest useful
      carriers reaches the server whole, yet nothing comes out of the flush and the next
      reading yields a one-byte payload. */
  lemma PageLimitBreaksReassembly()
    ensures var q := [Pending(LongPayload(101), 0)];
            var first := ClientRun(q, seq(100, _ => 21)); var last := ClientFill(first.rest, 13);
            var f := Accept(first.chunks, last.chunks);
            && Assemble(first.chunks + last.chunks, []).payloads == [LongPayload(101)]
            && f.payloads == []
            && Assemble(f.stored, []).payloads == [[1]]
  {
    var q := [Pending(LongPayload(101), 0)];
    var totals: seq<Budget> := seq(100, _ => 21);
    OneByteCarriers(100, 0);
    var first := ClientRun(q, totals);
    var last := ClientFill(first.rest, 13);
    assert last == Cut([FinalChunk([1])], 0, []);
    FinalBehindPage(first.chunks, FinalChunk([1]));
    SentWhole(q, totals, 21);
  }

  /** A full page of data chunks and then a final one: the final one is assembled alone. */
  lemma FinalBehindPage(page: seq<DenimChunk>, c: DenimChunk)
    requires |page| == PAGE_SIZE && NoDummies(page) && !HasFinal(page) && c.IsFinal()
    ensures Accept(page, [c]).payloads == []
    ensures Assemble(Accept(page, [c]).stored, []).payloads == [c.chunk]
  {
    var b := page + [c];
    assert b[..PAGE_SIZE] == page && b[PAGE_SIZE..] == [c];
    assert [c][0].IsFinal();
    AssembleData(page, []);
    assert [] + page == page;
    assert Accept(page, [c]) == Received([], [c] + page);
    AssembleConcat([c], page, []);
    assert [c][1..] == [] && Bytes(SortDesc([])) + c.chunk == c.chunk;
    assert Assemble([c], []) == Assembled([c.chunk], []);
    assert [c.chunk] + [] == [c.chunk];
  }

  /** A run and one more carrier that empty the queue. */
  lemma SentWhole(q: seq<Pending>, totals: seq<Budget>, total: Budget)
    requires Sendable(q) && ClientFill(ClientRun(q, totals).rest, total - EMPTY_VEC_SIZE).rest == []
    ensures var first := ClientRun(q, totals); var last := ClientFill(first.rest, total - EMPTY_VEC_SIZE);
            Assemble(first.chunks + last.chunks, []).payloads == Payloads(q)
  {
    var first := ClientRun(q, totals);
    var last := ClientFill(first.rest, total - EMPTY_VEC_SIZE);
    var b := first.chunks + last.chunks;
    ClientRunCuts(q, totals);
    ClientFillCuts(first.rest, total - EMPTY_VEC_SIZE);
    CutsConcat(q, NonDummy(first.chunks), first.rest, NonDummy(last.chunks), [], false);
    NonDummyConcat(first.chunks, last.chunks);
    CutsConserve(q, NonDummy(b), [], false, []);
    DummiesDoNotMatter(b, []);
    OwedNothing(q);
    assert Assemble(b, []).payloads + [] == Assemble(b, []).payloads;
  }

  // ---- Batch independence ----

  function Flatten(batches: seq<seq<DenimChunk>>): seq<DenimChunk> {
    if batches == [] then [] else batches[0] + Flatten(batches[1..])
  }

  function ServerBatches(buffer: seq<DenimChunk>, batches: seq<seq<DenimChunk>>): Received
    decreases |batches|
  {
    if batches == [] then Received([], buffer) else
    var a := Accept(buffer, batches[0]);
    var more := ServerBatches(a.stored, batches[1..]);
    Received(a.payloads + more.payloads, more.stored)
  }

  function ClientBatches(stored: seq<DenimChunk>, batches: seq<seq<DenimChunk>>): Received
    decreases |batches|
  {
    if batches == [] then Received([], stored) else
    var a := Handle(stored, batches[0]);
    var more := ClientBatches(a.stored, batches[1..]);
    Received(a.payloads + more.payloads, more.stored)
  }

  /** Every flush reads a buffer of at most one page. */
  ghost predicate PagesCover(buffer: seq<DenimChunk>, batches: seq<seq<DenimChunk>>)
    decreases |batches|
  {
    batches != [] ==>
      && (HasFinal(batches[0]) ==> |buffer + batches[0]| <= PAGE_SIZE)
      && PagesCover(Accept(buffer, batches[0]).stored, batches[1..])
  }

  lemma {:induction false} ServerBatchesAreOnePass(buffer: seq<DenimChunk>, batches: seq<seq<DenimChunk>>)
    requires NoDummies(buffer) && !HasFinal(buffer) && NoDummies(Flatten(batches))
    requires PagesCover(buffer, batches)
    ensures var a := Assemble(Flatten(batches), buffer);
            ServerBatches(buffer, batches) == Received(a.payloads, a.pending)
    decreases |batches|
  {
    if batches != [] {
      var cs, more := batches[0], Flatten(batches[1..]);
      assert forall c :: c in cs ==> c in cs + more;
      assert forall c :: c in more ==> c in cs + more;
      AssembleConcat(cs, more, buffer);
      AssembleData(buffer, []);
      assert [] + buffer == buffer;
      AssembleConcat(buffer, cs, []);
      PendingIsData(cs, buffer);
      if HasFinal(cs) {
        FlushWhole(buffer + cs);
      } else {
        AssembleData(cs, buffer);
      }
      ServerBatchesAreOnePass(Accept(buffer, cs).stored, batches[1..]);
    }
  }

  lemma {:induction false} KeepsData(cs: seq<DenimChunk>, pending: seq<DenimChunk>)
    requires !HasFinal(cs)
    ensures AssembleUnfiltered(cs, pending) == Assembled([], pending + cs)
    decreases |cs|
  {
    if cs != [] {
      assert !cs[0].IsFinal();
      assert !HasFinal(cs[1..]) by {
        forall i | 0 <= i < |cs[1..]| ensures !cs[1..][i].IsFinal() { assert !cs[i + 1].IsFinal(); }
      }
      KeepsData(cs[1..], pending + [cs[0]]);
      assert pending + [cs[0]] + cs[1..] == pending + cs;
    } else {
      assert pending + cs == pending;
    }
  }

  lemma HandleIsOnePass(stored: seq<DenimChunk>, cs: seq<DenimChunk>)
    ensures var a := AssembleUnfiltered(cs, stored); Handle(stored, cs) == Received(a.payloads, a.pending)
  {
    if !HasFinal(cs) { KeepsData(cs, stored); }
  }

  lemma {:induction false} UnfilteredConcat(x: seq<DenimChunk>, y: seq<DenimChunk>, pending: seq<DenimChunk>)
    ensures var a := AssembleUnfiltered(x, pending); var b := AssembleUnfiltered(y, a.pending);
            AssembleUnfiltered(x + y, pending) == Assembled(a.payloads + b.payloads, b.pending)
    decreases |x|
  {
    if x == [] {
      assert x + y == y;
    } else {
      assert (x + y)[1..] == x[1..] + y;
      UnfilteredConcat(x[1..], y, if x[0].IsFinal() then [] else pending + [x[0]]);
    }
  }

  /** The client's machine needs no hypothesis: it reads its whole table. */
  lemma {:induction false} ClientBatchesAreOnePass(stored: seq<DenimChunk>, batches: seq<seq<DenimChunk>>)
    ensures var a := AssembleUnfiltered(Flatten(batches), stored);
            ClientBatches(stored, batches) == Received(a.payloads, a.pending)
    decreases |batches|
  {
    if batches != [] {
      HandleIsOnePass(stored, batches[0]);
      UnfilteredConcat(batches[0], Flatten(batches[1..]), stored);
      ClientBatchesAreOnePass(Handle(stored, batches[0]).stored, batches[1..]);
    }
  }

  lemma {:induction false} NonDummyFixed(cs: seq<DenimChunk>)
    requires NoDummies(cs)
    ensures NonDummy(cs) == cs
  {
    if cs != [] { NonDummyFixed(cs[1..]); assert cs == [cs[0]] + cs[1..]; }
  }

  /** Two machines, two ways of splitting the same stream: same payloads, same rest. */
  lemma MachinesAgree(stored: seq<DenimChunk>, a: seq<seq<DenimChunk>>, b: seq<seq<DenimChunk>>)
    requires NoDummies(stored) && !HasFinal(stored)
    requires Flatten(a) == Flatten(b) && NoDummies(Flatten(a))
    requires PagesCover(stored, a)
    ensures ServerBatches(stored, a) == ClientBatches(stored, b)
  {
    ServerBatchesAreOnePass(stored, a);
    ClientBatchesAreOnePass(stored, b);
    SameAssembly(Flatten(a), stored);
    NonDummyFixed(Flatten(a));
  }
}
