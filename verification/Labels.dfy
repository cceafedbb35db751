/** The labels of data chunks over whole runs, to the last step: on the client they fall by
    one with every piece, on the server by one more for every bare chunk header. */
module Labels {
  import opened Chunks
  import opened Cutting
  import opened Streams

  /** cs, dummies included, takes q to q' label by label; burns says whether a dummy costs
      the head payload a label. While a payload is queued a dummy is a bare header. */
  ghost predicate Exactly(q: seq<Pending>, cs: seq<DenimChunk>, q': seq<Pending>, burns: bool)
    decreases |cs|
  {
    if cs == [] then q' == q
    else
      var c := cs[0];
      if c.IsFinal() then q != [] && c.chunk == q[0].bytes && Exactly(q[1..], cs[1..], q', burns)
      else if c.IsDummy() then
        && (q == [] || c == DummyChunk(0))
        && Exactly(if burns then Burnt(q) else q, cs[1..], q', burns)
      else
        && q != [] && c.IsData() && c.flags == q[0].order
        && 0 < |c.chunk| < |q[0].bytes| && c.chunk == q[0].bytes[..|c.chunk|]
        && Exactly(Advance(q, c), cs[1..], q', burns)
  }

  ghost predicate ExactCut(q: seq<Pending>, cut: Cut, burns: bool) {
    Exactly(q, cut.chunks, cut.rest, burns) && Sendable(cut.rest)
  }

  lemma ExactWhole(q: seq<Pending>, more: Cut, burns: bool)
    requires q != [] && ExactCut(q[1..], more, burns)
    ensures ExactCut(q, Cut([FinalChunk(q[0].bytes)] + more.chunks, more.left, more.rest), burns)
  {
    var cs := [FinalChunk(q[0].bytes)] + more.chunks;
    assert cs[0] == FinalChunk(q[0].bytes) && cs[1..] == more.chunks;
  }

  lemma ExactPiece(q: seq<Pending>, size: nat, burns: bool)
    requires q != [] && Sendable(q) && 0 < size < |q[0].bytes|
    ensures ExactCut(q, Cut([DenimChunk(q[0].bytes[..size], q[0].order)], 0,
                            [Pending(q[0].bytes[size..], q[0].order - 1)] + q[1..]), burns)
  {
    var c := DenimChunk(q[0].bytes[..size], q[0].order);
    SendablePiece(q, size);
    assert [c][1..] == [] && Exactly(Advance(q, c), [], Advance(q, c), burns);
  }

  lemma ExactDummy(q: seq<Pending>, size: nat, burns: bool)
    requires Sendable(q) && (q == [] || size == 0)
    ensures ExactCut(q, Cut([DummyChunk(size)], 0, if burns then Burnt(q) else q), burns)
  {
    var q' := if burns then Burnt(q) else q;
    assert [DummyChunk(size)][1..] == [] && Exactly(q', [], q', burns);
    if q != [] { assert Burnt(q)[1..] == q[1..]; }
  }

  lemma {:induction false} ClientExact(q: seq<Pending>, free: nat) returns (cut: Cut)
    requires Sendable(q)
    ensures cut == ClientFill(q, free) && ExactCut(q, cut, false)
    decreases free
  {
    cut := ClientFill(q, free);
    if free >= EMPTY_DENIMCHUNK_SIZE {
      var size := free - EMPTY_DENIMCHUNK_SIZE;
      ClientFillCases(q, free);
      if q == [] || size == 0 {
        ExactDummy(q, size, false);
      } else if |q[0].bytes| <= size {
        SendableTail(q);
        var more := ClientExact(q[1..], size - |q[0].bytes|);
        ExactWhole(q, more, false);
      } else {
        ExactPiece(q, size, false);
      }
    }
  }

  lemma {:induction false} ServerExact(q: seq<Pending>, free: nat) returns (cut: Cut)
    requires Sendable(q)
    ensures cut == ServerFill(q, free) && ExactCut(q, cut, true)
    decreases free
  {
    cut := ServerFill(q, free);
    if free >= EMPTY_DENIMCHUNK_SIZE {
      var size := free - EMPTY_DENIMCHUNK_SIZE;
      ServerFillCases(q, free);
      if q != [] && |q[0].bytes| <= size {
        SendableTail(q);
        var more := ServerExact(q[1..], size - |q[0].bytes|);
        ExactWhole(q, more, true);
      } else if q == [] || size == 0 {
        ExactDummy(q, size, true);
      } else {
        ExactPiece(q, size, true);
      }
    }
  }

  lemma {:induction false} ExactConcat(q: seq<Pending>, x: seq<DenimChunk>, q1: seq<Pending>,
                                       y: seq<DenimChunk>, q2: seq<Pending>, burns: bool)
    requires Exactly(q, x, q1, burns) && Exactly(q1, y, q2, burns)
    ensures Exactly(q, x + y, q2, burns)
    decreases |x|
  {
    if x == [] {
      assert x + y == y;
    } else {
      assert (x + y)[0] == x[0] && (x + y)[1..] == x[1..] + y;
      ExactConcat(AfterChunk(q, x[0], burns), x[1..], q1, y, q2, burns);
    }
  }

  /** The queue after one chunk of an exact stream. */
  function AfterChunk(q: seq<Pending>, c: DenimChunk, burns: bool): seq<Pending> {
    if c.IsDummy() then if burns then Burnt(q) else q
    else if q == [] then q
    else if c.IsFinal() || |c.chunk| >= |q[0].bytes| then q[1..]
    else Advance(q, c)
  }

  lemma {:induction false} ClientRunExact(q: seq<Pending>, totals: seq<Budget>)
    requires Sendable(q)
    ensures Exactly(q, ClientRun(q, totals).chunks, ClientRun(q, totals).rest, false)
    decreases |totals|
  {
    if totals != [] {
      var cut := ClientExact(q, totals[0] - EMPTY_VEC_SIZE);
      ClientRunExact(cut.rest, totals[1..]);
      var more := ClientRun(cut.rest, totals[1..]);
      ExactConcat(q, cut.chunks, cut.rest, more.chunks, more.rest, false);
    }
  }

  lemma {:induction false} ServerRunExact(q: seq<Pending>, totals: seq<Budget>)
    requires Sendable(q)
    ensures Exactly(q, ServerRun(q, totals).chunks, ServerRun(q, totals).rest, true)
    decreases |totals|
  {
    if totals != [] {
      var cut := ServerExact(q, totals[0] - EMPTY_VEC_SIZE);
      ServerRunExact(cut.rest, totals[1..]);
      var more := ServerRun(cut.rest, totals[1..]);
      ExactConcat(q, cut.chunks, cut.rest, more.chunks, more.rest, true);
    }
  }

  /** Pieces, and bare headers where they cost a label. */
  function Drops(cs: seq<DenimChunk>, burns: bool): nat {
    if cs == [] then 0
    else (if cs[0].IsData() || (burns && cs[0] == DummyChunk(0)) then 1 else 0) + Drops(cs[1..], burns)
  }

  lemma {:induction false} DropsConcat(x: seq<DenimChunk>, y: seq<DenimChunk>, burns: bool)
    ensures Drops(x + y, burns) == Drops(x, burns) + Drops(y, burns)
  {
    if x == [] {
      assert x + y == y;
    } else {
      assert (x + y)[1..] == x[1..] + y;
      DropsConcat(x[1..], y, burns);
    }
  }

  /** The head payload's pieces: from its label down by every piece and every costly header. */
  lemma {:induction false} HeadLabel(q: seq<Pending>, cs: seq<DenimChunk>, q': seq<Pending>, burns: bool, j: nat)
    requires LabelsSound(q) && Exactly(q, cs, q', burns)
    requires j < |cs| && SamePayload(cs, 0, j) && cs[j].IsData()
    ensures q != [] && cs[j].flags == q[0].order - Drops(cs[..j], burns)
    decreases |cs|
  {
    if j > 0 {
      assert !cs[0].IsFinal();
      var after := AfterChunk(q, cs[0], burns);
      assert forall k :: 0 <= k < |cs| - 1 ==> cs[1..][k] == cs[k + 1];
      assert SamePayload(cs[1..], 0, j - 1);
      assert cs[..j] == [cs[0]] + cs[1..][..j - 1];
      assert [cs[0]] + cs[1..][..j - 1] != [] && ([cs[0]] + cs[1..][..j - 1])[1..] == cs[1..][..j - 1];
      AfterSound(q, cs, q', burns);
      HeadLabel(after, cs[1..], q', burns, j - 1);
    }
  }

  lemma AfterSound(q: seq<Pending>, cs: seq<DenimChunk>, q': seq<Pending>, burns: bool)
    requires LabelsSound(q) && cs != [] && Exactly(q, cs, q', burns)
    ensures var after := AfterChunk(q, cs[0], burns);
      && LabelsSound(after) && Exactly(after, cs[1..], q', burns)
      && (q == [] ==> after == [])
      && (q != [] && !cs[0].IsFinal() ==>
            after != [] && after[0].order == q[0].order - (if cs[0].IsDummy() && !burns then 0 else 1))
      && (q != [] && cs[0].IsFinal() ==> after == q[1..])
      && (q != [] && cs[0].IsDummy() ==> cs[0] == DummyChunk(0))
  {
  }

  /** Exact labels. s is where a payload begins, at the start of the run or behind a final
      chunk. Its piece at j carries the payload's first label less one for every piece
      since s and, on the server, for every bare header since s; nothing else skips one. */
  lemma {:induction false} LabelsExactly(q: seq<Pending>, cs: seq<DenimChunk>, q': seq<Pending>, burns: bool, s: nat,
                                         j: nat)
    requires LabelsSound(q) && Exactly(q, cs, q', burns)
    requires s <= j < |cs| && SamePayload(cs, s, j) && cs[j].IsData() && (s == 0 || cs[s - 1].IsFinal())
    ensures s == 0 ==> q != [] && cs[j].flags == q[0].order - Drops(cs[..j], burns)
    ensures s > 0 ==> cs[j].flags == 0 - Drops(cs[s..j], burns)
    decreases |cs|
  {
    if s == 0 {
      HeadLabel(q, cs, q', burns, j);
    } else {
      var after := AfterChunk(q, cs[0], burns);
      assert forall k :: 0 <= k < |cs| - 1 ==> cs[1..][k] == cs[k + 1];
      assert SamePayload(cs[1..], s - 1, j - 1);
      AfterSound(q, cs, q', burns);
      LabelsExactly(after, cs[1..], q', burns, s - 1, j - 1);
      assert cs[1..][s - 1..j - 1] == cs[s..j];
    }
  }

  /** Over any run of server carriers: between two pieces of one payload the label falls by
      the pieces and the bare headers from the one up to the other, and by nothing else. */
  lemma ServerLabels(q: seq<Pending>, totals: seq<Budget>, s: nat, i: nat, j: nat)
    requires Sendable(q)
    requires var cs := ServerRun(q, totals).chunks;
      && s <= i <= j < |cs| && (s == 0 || cs[s - 1].IsFinal()) && SamePayload(cs, s, j)
      && cs[i].IsData() && cs[j].IsData()
    ensures var cs := ServerRun(q, totals).chunks; cs[j].flags == cs[i].flags - Drops(cs[i..j], true)
  {
    var cs := ServerRun(q, totals).chunks;
    ServerRunExact(q, totals);
    LabelsBetween(q, cs, ServerRun(q, totals).rest, true, s, i, j);
  }

  /** On the client only the pieces count. */
  lemma ClientLabels(q: seq<Pending>, totals: seq<Budget>, s: nat, i: nat, j: nat)
    requires Sendable(q)
    requires var cs := ClientRun(q, totals).chunks;
      && s <= i <= j < |cs| && (s == 0 || cs[s - 1].IsFinal()) && SamePayload(cs, s, j)
      && cs[i].IsData() && cs[j].IsData()
    ensures var cs := ClientRun(q, totals).chunks; cs[j].flags == cs[i].flags - Drops(cs[i..j], false)
  {
    var cs := ClientRun(q, totals).chunks;
    ClientRunExact(q, totals);
    LabelsBetween(q, cs, ClientRun(q, totals).rest, false, s, i, j);
  }

  lemma LabelsBetween(q: seq<Pending>, cs: seq<DenimChunk>, q': seq<Pending>, burns: bool, s: nat, i: nat, j: nat)
    requires LabelsSound(q) && Exactly(q, cs, q', burns)
    requires s <= i <= j < |cs| && (s == 0 || cs[s - 1].IsFinal()) && SamePayload(cs, s, j)
    requires cs[i].IsData() && cs[j].IsData()
    ensures cs[j].flags == cs[i].flags - Drops(cs[i..j], burns)
  {
    assert SamePayload(cs, s, i);
    LabelsExactly(q, cs, q', burns, s, i);
    LabelsExactly(q, cs, q', burns, s, j);
    DropsConcat(cs[s..i], cs[i..j], burns);
    assert cs[s..j] == cs[s..i] + cs[i..j] && cs[0..j] == cs[..j] && cs[0..i] == cs[..i];
  }

  /** Without a bare header the two cutters agree to the last label over whole runs. */
  lemma {:induction false} SameRunWithoutBareHeaders(q: seq<Pending>, totals: seq<Budget>)
    requires Sendable(q) && forall c :: c in ClientRun(q, totals).chunks ==> c != DummyChunk(0)
    ensures ServerRun(q, totals) == ClientRun(q, totals)
    decreases |totals|
  {
    if totals != [] {
      var free := totals[0] - EMPTY_VEC_SIZE;
      var cut := FillCutsOff(q, free);
      var more := ClientRun(cut.rest, totals[1..]);
      SameCarrier(q, free);
      assert ClientRun(q, totals).chunks == cut.chunks + more.chunks;
      assert forall c :: c in cut.chunks || c in more.chunks ==> c in cut.chunks + more.chunks;
      assert cut.chunks != [] ==> cut.chunks[|cut.chunks| - 1] in cut.chunks;
      SameRunWithoutBareHeaders(cut.rest, totals[1..]);
    }
  }
}
