/** Putting chunks back together: what the server's and the client's reassembly loops
    compute, and why the payloads come out as they went in. */
module Assembly {
  import opened Bincode
  import opened Chunks
  import opened Cutting
  import opened Streams

  /** Finished payloads, and the data chunks still waiting for their final one. */
  datatype Assembled = Assembled(payloads: seq<seq<Byte>>, pending: seq<DenimChunk>)

  /** The server's loop, starting from pending chunks. */
  function Assemble(cs: seq<DenimChunk>, pending: seq<DenimChunk>): Assembled
    decreases |cs|
  {
    if cs == [] then Assembled([], pending)
    else if cs[0].IsDummy() then Assemble(cs[1..], pending)
    else if cs[0].IsFinal() then
      var more := Assemble(cs[1..], []);
      Assembled([Bytes(SortDesc(pending)) + cs[0].chunk] + more.payloads, more.pending)
    else Assemble(cs[1..], pending + [cs[0]])
  }

  /** The client's loop: everything that is not final is kept. */
  function AssembleUnfiltered(cs: seq<DenimChunk>, pending: seq<DenimChunk>): Assembled
    decreases |cs|
  {
    if cs == [] then Assembled([], pending)
    else if cs[0].IsFinal() then
      var more := AssembleUnfiltered(cs[1..], []);
      Assembled([Bytes(SortDesc(pending) + [cs[0]])] + more.payloads, more.pending)
    else AssembleUnfiltered(cs[1..], pending + [cs[0]])
  }

  /** On the chunks the client passes on, the two loops agree. */
  lemma {:induction false} SameAssembly(cs: seq<DenimChunk>, pending: seq<DenimChunk>)
    ensures AssembleUnfiltered(NonDummy(cs), pending) == Assemble(cs, pending)
    decreases |cs|
  {
    if cs != [] {
      if !cs[0].IsDummy() { NonDummyHead(cs); }
      if cs[0].IsDummy() {
        assert NonDummy(cs) == NonDummy(cs[1..]);
        SameAssembly(cs[1..], pending);
      } else if cs[0].IsFinal() {
        SameAssembly(cs[1..], []);
        BytesConcat(SortDesc(pending), [cs[0]]);
        assert Bytes([cs[0]]) == cs[0].chunk;
      } else {
        SameAssembly(cs[1..], pending + [cs[0]]);
      }
    }
  }

  lemma {:induction false} DummiesDoNotMatter(cs: seq<DenimChunk>, pending: seq<DenimChunk>)
    ensures Assemble(NonDummy(cs), pending) == Assemble(cs, pending)
    decreases |cs|
  {
    if cs != [] {
      if cs[0].IsDummy() {
        assert NonDummy(cs) == NonDummy(cs[1..]);
        DummiesDoNotMatter(cs[1..], pending);
      } else {
        NonDummyHead(cs);
        DummiesDoNotMatter(cs[1..], if cs[0].IsFinal() then [] else pending + [cs[0]]);
      }
    }
  }

  /** Chunks may be handed over in batches. */
  lemma {:induction false} AssembleConcat(x: seq<DenimChunk>, y: seq<DenimChunk>, pending: seq<DenimChunk>)
    ensures var a := Assemble(x, pending); var b := Assemble(y, a.pending);
            Assemble(x + y, pending) == Assembled(a.payloads + b.payloads, b.pending)
    decreases |x|
  {
    if x == [] {
      assert x + y == y;
    } else {
      assert (x + y)[1..] == x[1..] + y;
      AssembleConcat(x[1..], y,
        if x[0].IsDummy() then pending else if x[0].IsFinal() then [] else pending + [x[0]]);
    }
  }

  // ---- Conservation ----

  function Payloads(q: seq<Pending>): seq<seq<Byte>> {
    if q == [] then [] else [q[0].bytes] + Payloads(q[1..])
  }

  /** The payloads still to come out: the head's missing bytes belong to the pending chunks. */
  function Owed(pending: seq<DenimChunk>, q: seq<Pending>): seq<seq<Byte>> {
    if q == [] then [] else [Bytes(SortDesc(pending)) + q[0].bytes] + Payloads(q[1..])
  }

  /** pending holds earlier pieces of q's head, each under its own higher label. */
  ghost predicate Precedes(pending: seq<DenimChunk>, q: seq<Pending>) {
    && DistinctLabels(pending)
    && (forall c :: c in pending ==> c.IsData())
    && (q == [] ==> pending == [])
    && (q != [] ==> forall c :: c in pending ==> c.flags > q[0].order)
  }

  lemma {:induction false} SortAppendLowest(s: seq<DenimChunk>, c: DenimChunk)
    requires forall x :: x in s ==> x.flags > c.flags
    ensures SortDesc(s + [c]) == SortDesc(s) + [c]
  {
    if s == [] {
      assert s + [c] == [c];
    } else {
      assert (s + [c])[1..] == s[1..] + [c];
      SortAppendLowest(s[1..], c);
      InsertBeforeLast(s[0], SortDesc(s[1..]), c);
    }
  }

  lemma {:induction false} InsertBeforeLast(x: DenimChunk, s: seq<DenimChunk>, c: DenimChunk)
    requires x.flags > c.flags
    ensures InsertDesc(x, s + [c]) == InsertDesc(x, s) + [c]
  {
    if s != [] && x.flags < s[0].flags {
      assert (s + [c])[1..] == s[1..] + [c];
      InsertBeforeLast(x, s[1..], c);
    } else if s == [] {
      assert s + [c] == [c];
    }
  }

  lemma OwedPiece(pending: seq<DenimChunk>, q: seq<Pending>, c: DenimChunk)
    requires q != [] && Precedes(pending, q)
    requires c.IsData() && |c.chunk| < |q[0].bytes| && c.chunk == q[0].bytes[..|c.chunk|] && c.flags <= q[0].order
    ensures Owed(pending + [c], Advance(q, c)) == Owed(pending, q)
    ensures Precedes(pending + [c], Advance(q, c))
  {
    BytesOfAppended(pending, c);
    var sent, rest := Bytes(SortDesc(pending)), q[0].bytes[|c.chunk|..];
    assert q[0].bytes == c.chunk + rest;
    assert sent + c.chunk + rest == sent + (c.chunk + rest);
    assert Advance(q, c)[1..] == q[1..];
    assert forall x :: x in pending + [c] ==> x in pending || x == c;
  }

  lemma BytesOfAppended(pending: seq<DenimChunk>, c: DenimChunk)
    requires forall x :: x in pending ==> x.flags > c.flags
    ensures Bytes(SortDesc(pending + [c])) == Bytes(SortDesc(pending)) + c.chunk
  {
    SortAppendLowest(pending, c);
    BytesConcat(SortDesc(pending), [c]);
    assert Bytes([c]) == c.chunk;
  }

  /** Nothing is lost, invented, reordered or mixed: what comes out, followed by what is
      still owed, is what went in. */
  lemma {:induction false} CutsConserve(q: seq<Pending>, cs: seq<DenimChunk>, q': seq<Pending>,
                                        gaps: bool, pending: seq<DenimChunk>)
    requires Sendable(q) && Cuts(q, cs, q', gaps) && Precedes(pending, q)
    ensures var r := Assemble(cs, pending);
            r.payloads + Owed(r.pending, q') == Owed(pending, q) && Precedes(r.pending, q')
    decreases |cs|
  {
    if cs != [] {
      var c := cs[0];
      if c.IsFinal() {
        SendableTail(q);
        CutsConserve(q[1..], cs[1..], q', gaps, []);
        OwedNothing(q[1..]);
      } else {
        SendablePiece(q, |c.chunk|);
        assert Sendable(Advance(q, c));
        OwedPiece(pending, q, c);
        CutsConserve(Advance(q, c), cs[1..], q', gaps, pending + [c]);
      }
    }
  }

  lemma OwedNothing(q: seq<Pending>)
    ensures Owed([], q) == Payloads(q)
  {
    assert Bytes(SortDesc([])) == [];
    if q != [] { assert [] + q[0].bytes == q[0].bytes; }
  }

  lemma {:induction false} PayloadsConcat(a: seq<Pending>, b: seq<Pending>)
    ensures Payloads(a + b) == Payloads(a) + Payloads(b)
  {
    if a == [] { assert a + b == b; } else {
      assert (a + b)[1..] == a[1..] + b;
      PayloadsConcat(a[1..], b);
    }
  }

  lemma OwedConcat(pending: seq<DenimChunk>, a: seq<Pending>, b: seq<Pending>)
    requires a == [] ==> pending == []
    ensures Owed(pending, a + b) == Owed(pending, a) + Payloads(b)
  {
    if a == [] {
      assert a + b == b;
      OwedNothing(b);
    } else {
      assert (a + b)[1..] == a[1..] + b;
      PayloadsConcat(a[1..], b);
    }
  }

  // ---- Reordering ----

  /** Position of the first final chunk, or the length. */
  function FirstFinal(cs: seq<DenimChunk>): (i: nat)
    ensures i <= |cs|
    ensures forall k :: 0 <= k < i ==> !cs[k].IsFinal()
    ensures i < |cs| ==> cs[i].IsFinal()
  {
    if cs == [] || cs[0].IsFinal() then 0 else 1 + FirstFinal(cs[1..])
  }

  /** t has the chunks of s with the data chunks of each payload shuffled among
      themselves, every final chunk in its place. */
  ghost predicate Reordered(s: seq<DenimChunk>, t: seq<DenimChunk>)
    decreases |s|
  {
    var i, j := FirstFinal(s), FirstFinal(t);
    && multiset(s[..i]) == multiset(t[..j])
    && (i == |s| <==> j == |t|)
    && (i < |s| ==> s[i] == t[j] && Reordered(s[i + 1..], t[j + 1..]))
  }

  lemma {:induction false} AssembleLead(cs: seq<DenimChunk>, n: nat, pending: seq<DenimChunk>)
    requires n <= |cs| && forall k :: 0 <= k < n ==> !cs[k].IsFinal() && !cs[k].IsDummy()
    ensures Assemble(cs, pending) == Assemble(cs[n..], pending + cs[..n])
    decreases n
  {
    if n == 0 {
      assert cs[0..] == cs && pending + cs[..0] == pending;
    } else {
      AssembleLead(cs[1..], n - 1, pending + [cs[0]]);
      assert cs[1..][n - 1..] == cs[n..];
      assert pending + [cs[0]] + cs[1..][..n - 1] == pending + cs[..n];
    }
  }

  lemma AssembleToFinal(cs: seq<DenimChunk>, pending: seq<DenimChunk>)
    requires forall c :: c in cs ==> !c.IsDummy()
    ensures var i := FirstFinal(cs); var open := pending + cs[..i];
      if i == |cs| then Assemble(cs, pending) == Assembled([], open)
      else var more := Assemble(cs[i + 1..], []);
           Assemble(cs, pending) == Assembled([Bytes(SortDesc(open)) + cs[i].chunk] + more.payloads, more.pending)
  {
    var i := FirstFinal(cs);
    AssembleLead(cs, i, pending);
    if i < |cs| { assert cs[i..][1..] == cs[i + 1..]; }
  }

  /** Every payload's data chunks in cs, the pending ones included, have labels of their own. */
  ghost predicate DistinctPerPayload(cs: seq<DenimChunk>, pending: seq<DenimChunk>)
    decreases |cs|
  {
    var i := FirstFinal(cs);
    DistinctLabels(pending + cs[..i]) && (i < |cs| ==> DistinctPerPayload(cs[i + 1..], []))
  }

  lemma {:induction false} ReorderingIsInvisible(s: seq<DenimChunk>, t: seq<DenimChunk>,
                                                 p: seq<DenimChunk>, p': seq<DenimChunk>)
    requires Reordered(s, t) && multiset(p) == multiset(p') && DistinctPerPayload(s, p)
    requires forall c :: c in s ==> !c.IsDummy()
    requires forall c :: c in t ==> !c.IsDummy()
    ensures Assemble(t, p').payloads == Assemble(s, p).payloads
    ensures multiset(Assemble(t, p').pending) == multiset(Assemble(s, p).pending)
    decreases |s|
  {
    var i, j := FirstFinal(s), FirstFinal(t);
    AssembleToFinal(s, p);
    AssembleToFinal(t, p');
    assert multiset(p + s[..i]) == multiset(p' + t[..j]);
    if i < |s| {
      SortIgnoresOrder(p + s[..i], p' + t[..j]);
      ReorderingIsInvisible(s[i + 1..], t[j + 1..], [], []);
    }
  }

  lemma {:induction false} CutsDistinct(q: seq<Pending>, cs: seq<DenimChunk>, q': seq<Pending>,
                                        gaps: bool, pending: seq<DenimChunk>)
    requires Sendable(q) && Cuts(q, cs, q', gaps) && Precedes(pending, q)
    ensures DistinctPerPayload(cs, pending)
    decreases |cs|
  {
    if cs == [] {
      assert pending + cs[..0] == pending;
    } else {
      var c := cs[0];
      if c.IsFinal() {
        SendableTail(q);
        CutsDistinct(q[1..], cs[1..], q', gaps, []);
        assert pending + cs[..0] == pending;
      } else {
        SendablePiece(q, |c.chunk|);
        OwedPiece(pending, q, c);
        CutsDistinct(Advance(q, c), cs[1..], q', gaps, pending + [c]);
        var i := FirstFinal(cs[1..]);
        assert pending + [c] + cs[1..][..i] == pending + cs[..i + 1];
        assert i + 1 < |cs| ==> cs[1..][i + 1..] == cs[i + 2..];
      }
    }
  }

  /** Reassembly survives reordering. For any queue of payloads cut by either cutter over
      any carriers: shuffle each payload's data chunks, add dummies anywhere, keep every
      final chunk in its place. Then the finished payloads followed by what is still owed
      are the payloads queued; once the queue is sent, exactly those and nothing pending. */
  lemma ReorderedReassembly(q: seq<Pending>, cs: seq<DenimChunk>, q': seq<Pending>, gaps: bool, t: seq<DenimChunk>)
    requires Sendable(q) && Cuts(q, cs, q', gaps)
    requires Reordered(cs, NonDummy(t))
    ensures var r := Assemble(t, []);
            && r.payloads + Owed(r.pending, q') == Payloads(q)
            && (q' == [] ==> r == Assembled(Payloads(q), []))
  {
    assert Precedes([], q);
    CutsConserve(q, cs, q', gaps, []);
    CutsDistinct(q, cs, q', gaps, []);
    CutsNoDummy(q, cs, q', gaps);
    ReorderingIsInvisible(cs, NonDummy(t), [], []);
    DummiesDoNotMatter(t, []);
    OwedNothing(q);
    var r, s := Assemble(t, []), Assemble(cs, []);
    SortIgnoresOrder(s.pending, r.pending);
    if q' == [] {
      assert multiset(r.pending) == multiset{};
      assert r.payloads + [] == r.payloads;
      assert |multiset(r.pending)| == |r.pending|;
    }
  }

  lemma {:induction false} CutsNoDummy(q: seq<Pending>, cs: seq<DenimChunk>, q': seq<Pending>, gaps: bool)
    requires Cuts(q, cs, q', gaps)
    ensures forall c :: c in cs ==> !c.IsDummy() && c.flags <= 2
    decreases |cs|
  {
    if cs != [] {
      CutsNoDummy(if cs[0].IsFinal() then q[1..] else Advance(q, cs[0]), cs[1..], q', gaps);
      assert cs == [cs[0]] + cs[1..];
    }
  }

  /** The program's own case: payloads queued afresh, client carriers of any sizes. */
  lemma ReorderedRunReassembly(q: seq<Pending>, totals: seq<Budget>, t: seq<DenimChunk>)
    requires Sendable(q) && Reordered(NonDummy(ClientRun(q, totals).chunks), NonDummy(t))
    ensures ClientRun(q, totals).rest == [] ==> Assemble(t, []) == Assembled(Payloads(q), [])
    ensures Assemble(t, []).payloads <= Payloads(q)
  {
    ClientRunCuts(q, totals);
    ReorderedReassembly(q, NonDummy(ClientRun(q, totals).chunks), ClientRun(q, totals).rest, false, t);
  }
}
