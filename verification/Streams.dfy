/** Chunk streams over many carriers: what either fill loop does to a queue, seen only
    through the chunks that carry payload bytes. */
module Streams {
  import opened Chunks
  import opened Cutting

  /** The same queue, except that the head may have lost labels without sending a byte. */
  ghost predicate Later(q: seq<Pending>, q': seq<Pending>, gaps: bool) {
    if q == [] then q' == []
    else q' != [] && q'[0].bytes == q[0].bytes && q'[1..] == q[1..]
         && (q'[0].order == q[0].order || (gaps && q'[0].order < q[0].order))
  }

  /** The dummy-free stream cs takes queue q to queue q', one payload after the other,
      each as data pieces with falling labels and then a final chunk. Without gaps the
      labels fall by exactly one. */
  ghost predicate Cuts(q: seq<Pending>, cs: seq<DenimChunk>, q': seq<Pending>, gaps: bool)
    decreases |cs|
  {
    if cs == [] then Later(q, q', gaps)
    else
      var c := cs[0];
      && q != []
      && if c.IsFinal() then c.chunk == q[0].bytes && Cuts(q[1..], cs[1..], q', gaps)
         else
           && c.IsData() && 0 < |c.chunk| < |q[0].bytes|
           && c.chunk == q[0].bytes[..|c.chunk|]
           && (c.flags == q[0].order || (gaps && c.flags < q[0].order))
           && Cuts(Advance(q, c), cs[1..], q', gaps)
  }

  /** The queue after piece c of its head payload has gone out. */
  function Advance(q: seq<Pending>, c: DenimChunk): seq<Pending>
    requires q != [] && |c.chunk| < |q[0].bytes|
  {
    [Pending(q[0].bytes[|c.chunk|..], c.flags - 1)] + q[1..]
  }

  lemma {:induction false} CutsConcat(q: seq<Pending>, x: seq<DenimChunk>, q1: seq<Pending>,
                                      y: seq<DenimChunk>, q2: seq<Pending>, gaps: bool)
    requires Cuts(q, x, q1, gaps) && Cuts(q1, y, q2, gaps)
    ensures Cuts(q, x + y, q2, gaps)
    decreases |x|
  {
    if x == [] {
      assert x + y == y;
      if y != [] && !y[0].IsFinal() { assert Advance(q, y[0]) == Advance(q1, y[0]); }
    } else {
      assert (x + y)[1..] == x[1..] + y;
      var after := if x[0].IsFinal() then q[1..] else Advance(q, x[0]);
      CutsConcat(after, x[1..], q1, y, q2, gaps);
    }
  }

  lemma CutsFinal(q: seq<Pending>, more: Cut, gaps: bool)
    requires q != [] && Cuts(q[1..], NonDummy(more.chunks), more.rest, gaps)
    ensures Cuts(q, NonDummy([FinalChunk(q[0].bytes)] + more.chunks), more.rest, gaps)
  {
    var c, cs := FinalChunk(q[0].bytes), more.chunks;
    assert ([c] + cs)[1..] == cs;
    assert NonDummy([c] + cs) == [c] + NonDummy(cs);
    assert ([c] + NonDummy(cs))[1..] == NonDummy(cs);
  }

  lemma CutsPiece(q: seq<Pending>, size: nat, gaps: bool)
    requires q != [] && 0 < size < |q[0].bytes| && q[0].order <= 0
    ensures Cuts(q, NonDummy([DenimChunk(q[0].bytes[..size], q[0].order)]),
                 [Pending(q[0].bytes[size..], q[0].order - 1)] + q[1..], gaps)
  {
    var c := DenimChunk(q[0].bytes[..size], q[0].order);
    assert NonDummy([c]) == [c];
    assert Cuts(Advance(q, c), [], Advance(q, c), gaps);
  }

  lemma DummyIsSilent(size: nat)
    ensures NonDummy([DummyChunk(size)]) == []
  {
  }

  /** What both cutters keep of a sendable queue. */
  ghost predicate Sendable(q: seq<Pending>) { LabelsSound(q) && AllNonEmpty(q) }

  lemma SendableTail(q: seq<Pending>)
    requires q != [] && Sendable(q)
    ensures Sendable(q[1..])
  {
  }

  lemma SendablePiece(q: seq<Pending>, size: nat)
    requires q != [] && Sendable(q) && size < |q[0].bytes|
    ensures Sendable([Pending(q[0].bytes[size..], q[0].order - 1)] + q[1..])
  {
  }

  /** A carrier without a whole payload in it: a piece, a dummy, or nothing. */
  lemma LastCuts(q: seq<Pending>, free: nat)
    requires Sendable(q) && free >= EMPTY_DENIMCHUNK_SIZE
    requires q == [] || free - EMPTY_DENIMCHUNK_SIZE < |q[0].bytes|
    ensures var cut := ClientFill(q, free); Cuts(q, NonDummy(cut.chunks), cut.rest, false) && Sendable(cut.rest)
  {
    var size := free - EMPTY_DENIMCHUNK_SIZE;
    if q != [] && size > 0 {
      SendablePiece(q, size);
      CutsPiece(q, size, false);
    } else {
      DummyIsSilent(size);
    }
  }

  /** cut is what a carrier takes off q. */
  ghost predicate CutsOff(q: seq<Pending>, cut: Cut, gaps: bool) {
    Cuts(q, NonDummy(cut.chunks), cut.rest, gaps) && Sendable(cut.rest)
  }

  /** One more whole payload at the front of a carrier. */
  lemma WholeCuts(q: seq<Pending>, more: Cut)
    requires q != [] && CutsOff(q[1..], more, false)
    ensures CutsOff(q, Cut([FinalChunk(q[0].bytes)] + more.chunks, more.left, more.rest), false)
  {
    CutsFinal(q, more, false);
  }

  lemma {:induction false} FillCutsOff(q: seq<Pending>, free: nat) returns (cut: Cut)
    requires Sendable(q)
    ensures cut == ClientFill(q, free) && CutsOff(q, cut, false)
    decreases free
  {
    if free >= EMPTY_DENIMCHUNK_SIZE && q != [] && |q[0].bytes| <= free - EMPTY_DENIMCHUNK_SIZE {
      SendableTail(q);
      var more := FillCutsOff(q[1..], free - EMPTY_DENIMCHUNK_SIZE - |q[0].bytes|);
      cut := Cut([FinalChunk(q[0].bytes)] + more.chunks, more.left, more.rest);
      ClientFillCases(q, free);
      WholeCuts(q, more);
    } else {
      cut := ClientFill(q, free);
      if free >= EMPTY_DENIMCHUNK_SIZE { LastCuts(q, free); }
    }
  }

  lemma ClientFillCuts(q: seq<Pending>, free: nat)
    requires Sendable(q)
    ensures CutsOff(q, ClientFill(q, free), false)
  {
    var cut := FillCutsOff(q, free);
  }

  /** The server sends what the client would, so its cut is one too, up to the label a
      bare header costs. */
  lemma ServerFillCuts(q: seq<Pending>, free: nat)
    requires Sendable(q)
    ensures CutsOff(q, ServerFill(q, free), true)
  {
    var c := FillCutsOff(q, free);
    SameCarrier(q, free);
    GapsAllowed(q, NonDummy(c.chunks), c.rest);
    if EndsBare(c.chunks) { BurntCuts(q, c); }
  }

  lemma BurntCuts(q: seq<Pending>, c: Cut)
    requires CutsOff(q, c, true)
    ensures CutsOff(q, c.(rest := Burnt(c.rest)), true)
  {
    assert Cuts(c.rest, [], Burnt(c.rest), true);
    CutsConcat(q, NonDummy(c.chunks), c.rest, [], Burnt(c.rest), true);
    assert NonDummy(c.chunks) + [] == NonDummy(c.chunks);
  }

  lemma {:induction false} GapsAllowed(q: seq<Pending>, cs: seq<DenimChunk>, q': seq<Pending>)
    requires Cuts(q, cs, q', false)
    ensures Cuts(q, cs, q', true)
    decreases |cs|
  {
    if cs != [] {
      GapsAllowed(if cs[0].IsFinal() then q[1..] else Advance(q, cs[0]), cs[1..], q');
    }
  }

  // ---- Runs over carriers ----

  /** The byte budget of one carrier. The program subtracts the size of an empty chunk
      list from it unchecked, so smaller budgets are outside its domain. */
  type Budget = t: nat | t >= EMPTY_VEC_SIZE witness EMPTY_VEC_SIZE

  /** Chunks of all carriers in sending order, and the queue that remains. */
  datatype CutRun = CutRun(chunks: seq<DenimChunk>, rest: seq<Pending>)

  function ClientRun(q: seq<Pending>, totals: seq<Budget>): CutRun
    decreases |totals|
  {
    if totals == [] then CutRun([], q) else
    var cut := ClientFill(q, totals[0] - EMPTY_VEC_SIZE);
    var more := ClientRun(cut.rest, totals[1..]);
    CutRun(cut.chunks + more.chunks, more.rest)
  }

  function ServerRun(q: seq<Pending>, totals: seq<Budget>): CutRun
    decreases |totals|
  {
    if totals == [] then CutRun([], q) else
    var cut := ServerFill(q, totals[0] - EMPTY_VEC_SIZE);
    var more := ServerRun(cut.rest, totals[1..]);
    CutRun(cut.chunks + more.chunks, more.rest)
  }

  lemma {:induction false} ClientRunCuts(q: seq<Pending>, totals: seq<Budget>)
    requires Sendable(q)
    ensures var r := ClientRun(q, totals);
            Cuts(q, NonDummy(r.chunks), r.rest, false) && Sendable(r.rest)
    decreases |totals|
  {
    if totals != [] {
      var cut := ClientFill(q, totals[0] - EMPTY_VEC_SIZE);
      ClientFillCuts(q, totals[0] - EMPTY_VEC_SIZE);
      ClientRunCuts(cut.rest, totals[1..]);
      var more := ClientRun(cut.rest, totals[1..]);
      NonDummyConcat(cut.chunks, more.chunks);
      CutsConcat(q, NonDummy(cut.chunks), cut.rest, NonDummy(more.chunks), more.rest, false);
    }
  }

  lemma {:induction false} ServerRunCuts(q: seq<Pending>, totals: seq<Budget>)
    requires Sendable(q)
    ensures var r := ServerRun(q, totals);
            Cuts(q, NonDummy(r.chunks), r.rest, true) && Sendable(r.rest)
    decreases |totals|
  {
    if totals != [] {
      var cut := ServerFill(q, totals[0] - EMPTY_VEC_SIZE);
      ServerFillCuts(q, totals[0] - EMPTY_VEC_SIZE);
      ServerRunCuts(cut.rest, totals[1..]);
      var more := ServerRun(cut.rest, totals[1..]);
      NonDummyConcat(cut.chunks, more.chunks);
      CutsConcat(q, NonDummy(cut.chunks), cut.rest, NonDummy(more.chunks), more.rest, true);
    }
  }

  /** Over any run of carriers both cutters send the same bytes in the same shape. */
  lemma {:induction false} SameCutterOverRuns(a: seq<Pending>, b: seq<Pending>, totals: seq<Budget>)
    requires SameBytes(a, b) && Sendable(a) && Sendable(b)
    ensures SameButLabels(ClientRun(a, totals).chunks, ServerRun(b, totals).chunks)
    ensures SameBytes(ClientRun(a, totals).rest, ServerRun(b, totals).rest)
    decreases |totals|
  {
    if totals != [] {
      var free := totals[0] - EMPTY_VEC_SIZE;
      SameCutter(a, b, free);
      ClientFillCuts(a, free);
      ServerFillCuts(b, free);
      SameCutterOverRuns(ClientFill(a, free).rest, ServerFill(b, free).rest, totals[1..]);
    }
  }

  // ---- Labels ----

  /** No final chunk in cs[i..j]. */
  ghost predicate SamePayload(cs: seq<DenimChunk>, i: int, j: int)
    requires 0 <= i <= j < |cs|
  {
    forall k :: i <= k < j ==> !cs[k].IsFinal()
  }

  /** Pieces of one payload carry strictly falling labels, at most the payload's own
      starting label, and without gaps they fall one at a time. */
  lemma {:induction false} LabelsFall(q: seq<Pending>, cs: seq<DenimChunk>, q': seq<Pending>, gaps: bool, i: nat,
                                      j: nat)
    requires LabelsSound(q) && Cuts(q, cs, q', gaps)
    requires i <= j < |cs| && SamePayload(cs, i, j) && cs[i].IsData() && cs[j].IsData()
    ensures cs[j].flags <= cs[i].flags - (j - i)
    ensures !gaps ==> cs[j].flags == cs[i].flags - (j - i)
    ensures i == 0 ==> cs[i].flags <= q[0].order && (!gaps ==> cs[i].flags == q[0].order)
    ensures i > 0 && cs[i - 1].IsFinal() && !gaps ==> cs[i].flags == 0
    decreases |cs|
  {
    var after := if cs[0].IsFinal() then q[1..] else Advance(q, cs[0]);
    if i > 0 {
      assert forall k :: 0 <= k < |cs| - 1 ==> cs[1..][k] == cs[k + 1];
      LabelsFall(after, cs[1..], q', gaps, i - 1, j - 1);
    } else if j > 0 {
      assert !cs[0].IsFinal();
      assert forall k :: 0 <= k < |cs| - 1 ==> cs[1..][k] == cs[k + 1];
      FirstPiece(after, cs[1..], q', gaps);
      assert cs[1..][0].IsData() by { assert SamePayload(cs, 0, j); assert j > 1 ==> !cs[1].IsFinal(); }
      LabelsFall(after, cs[1..], q', gaps, 0, j - 1);
    }
  }

  lemma FirstPiece(q: seq<Pending>, cs: seq<DenimChunk>, q': seq<Pending>, gaps: bool)
    requires Cuts(q, cs, q', gaps) && cs != []
    ensures cs[0].IsFinal() || cs[0].IsData()
  {
  }
}
