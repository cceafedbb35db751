/** How fast a queue drains and into how many pieces a payload can be cut. */
module Sizing {
  import opened Bincode
  import opened Limits
  import opened Chunks
  import opened Cutting
  import opened Streams
  import opened Assembly
  import opened Relay

  /** Below this budget a carrier need not move a single payload byte. */
  const USEFUL: nat := EMPTY_VEC_SIZE + EMPTY_DENIMCHUNK_SIZE + 1

  ghost predicate AtLeast(totals: seq<Budget>, t: nat) {
    forall i :: 0 <= i < |totals| ==> totals[i] >= t
  }

  ghost predicate AtMost(totals: seq<Budget>, u: nat) {
    forall i :: 0 <= i < |totals| ==> totals[i] <= u
  }

  function Backlog(q: seq<Pending>): nat {
    if q == [] then 0 else |q[0].bytes| + Backlog(q[1..])
  }

  lemma {:induction false} FillNeverGrows(q: seq<Pending>, free: nat)
    ensures Backlog(ClientFill(q, free).rest) <= Backlog(q)
    decreases free
  {
    if free >= EMPTY_DENIMCHUNK_SIZE && q != [] && q[0].bytes != [] {
      var size := free - EMPTY_DENIMCHUNK_SIZE;
      if |q[0].bytes| <= size {
        FillNeverGrows(q[1..], size - |q[0].bytes|);
      } else if size > 0 {
        assert ([Pending(q[0].bytes[size..], q[0].order - 1)] + q[1..])[1..] == q[1..];
      }
    }
  }

  /** A useful carrier moves the head payload or fills itself with it. */
  lemma CarrierProgress(q: seq<Pending>, total: Budget)
    requires q != [] && AllNonEmpty(q) && total >= USEFUL
    ensures Backlog(ClientFill(q, total - EMPTY_VEC_SIZE).rest) + Min(|q[0].bytes|, total - USEFUL + 1) <= Backlog(q)
  {
    var size := total - USEFUL + 1;
    if |q[0].bytes| <= size {
      FillNeverGrows(q[1..], size - |q[0].bytes|);
    } else {
      assert ([Pending(q[0].bytes[size..], q[0].order - 1)] + q[1..])[1..] == q[1..];
    }
  }

  lemma {:induction false} EmptyBacklog(q: seq<Pending>)
    requires AllNonEmpty(q)
    ensures Backlog(q) == 0 <==> q == []
  {
  }

  lemma {:induction false} FillStaysNonEmpty(q: seq<Pending>, free: nat)
    requires AllNonEmpty(q)
    ensures AllNonEmpty(ClientFill(q, free).rest)
    decreases free
  {
    if free >= EMPTY_DENIMCHUNK_SIZE && q != [] && |q[0].bytes| <= free - EMPTY_DENIMCHUNK_SIZE {
      FillStaysNonEmpty(q[1..], free - EMPTY_DENIMCHUNK_SIZE - |q[0].bytes|);
    }
  }

  /** A backlog of B bytes is gone after B useful carriers. */
  lemma {:induction false} Drains(q: seq<Pending>, totals: seq<Budget>)
    requires AllNonEmpty(q) && AtLeast(totals, USEFUL) && |totals| >= Backlog(q)
    ensures ClientRun(q, totals).rest == []
    decreases |totals|
  {
    EmptyBacklog(q);
    if totals != [] {
      var cut := ClientFill(q, totals[0] - EMPTY_VEC_SIZE);
      FillStaysNonEmpty(q, totals[0] - EMPTY_VEC_SIZE);
      if q != [] { CarrierProgress(q, totals[0]); } else { FillNeverGrows(q, totals[0] - EMPTY_VEC_SIZE); }
      EmptyBacklog(cut.rest);
      Drains(cut.rest, totals[1..]);
    }
  }

  // ---- Empty payloads ----

  /** The queue ends as q does from i on. */
  predicate EndsLike(rest: seq<Pending>, q: seq<Pending>, i: nat)
    requires i <= |q|
  {
    |rest| >= |q| - i && rest[|rest| - (|q| - i)..] == q[i..]
  }

  lemma {:induction false} FillBlocked(q: seq<Pending>, free: nat, i: nat)
    requires i < |q| && q[i].bytes == []
    ensures EndsLike(ClientFill(q, free).rest, q, i)
    decreases free
  {
    if free >= EMPTY_DENIMCHUNK_SIZE && 0 < |q[0].bytes| <= free - EMPTY_DENIMCHUNK_SIZE {
      FillBlocked(q[1..], free - EMPTY_DENIMCHUNK_SIZE - |q[0].bytes|, i - 1);
    }
  }

  /** The client never gets past an empty payload, whatever carriers it is given. */
  lemma {:induction false} Blocked(q: seq<Pending>, totals: seq<Budget>, i: nat)
    requires i < |q| && q[i].bytes == []
    ensures EndsLike(ClientRun(q, totals).rest, q, i)
    decreases |totals|
  {
    if totals != [] {
      var rest := ClientFill(q, totals[0] - EMPTY_VEC_SIZE).rest;
      FillBlocked(q, totals[0] - EMPTY_VEC_SIZE, i);
      var j := |rest| - (|q| - i);
      assert rest[j] == rest[j..][0] == q[i];
      Blocked(rest, totals[1..], j);
    }
  }

  lemma {:induction false} ServerNeverGrows(q: seq<Pending>, free: nat)
    ensures Backlog(ServerFill(q, free).rest) + |ServerFill(q, free).rest| <= Backlog(q) + |q|
    decreases free
  {
    if free >= EMPTY_DENIMCHUNK_SIZE {
      var size := free - EMPTY_DENIMCHUNK_SIZE;
      var t := TakeBytes(q, size);
      TakenBacklog(q, size);
      if t.data != [] { ServerNeverGrows(t.rest, size - |t.data|); }
    }
  }

  lemma TakenBacklog(q: seq<Pending>, amount: nat)
    ensures var t := TakeBytes(q, amount);
      && Backlog(t.rest) + |t.rest| <= Backlog(q) + |q|
      && (q != [] && amount > 0 ==> Backlog(t.rest) + |t.rest| < Backlog(q) + |q|)
  {
    if q != [] && amount < |q[0].bytes| {
      assert ([Pending(q[0].bytes[amount..], q[0].order - 1)] + q[1..])[1..] == q[1..];
    }
  }

  /** The server gets rid of any queue, empty payloads or not. */
  lemma {:induction false} ServerDrains(q: seq<Pending>, totals: seq<Budget>)
    requires AtLeast(totals, USEFUL) && |totals| >= Backlog(q) + |q|
    ensures ServerRun(q, totals).rest == []
    decreases |totals|
  {
    if totals != [] {
      var size := totals[0] - EMPTY_VEC_SIZE - EMPTY_DENIMCHUNK_SIZE;
      var t := TakeBytes(q, size);
      TakenBacklog(q, size);
      if t.data != [] { ServerNeverGrows(t.rest, size - |t.data|); }
      ServerDrains(ServerFill(q, totals[0] - EMPTY_VEC_SIZE).rest, totals[1..]);
    }
  }

  /** Some carriers empty the client's queue exactly when no payload in it is empty. Some
      always empty the server's. */
  lemma EmptiesExactly(q: seq<Pending>)
    ensures (exists totals: seq<Budget> :: ClientRun(q, totals).rest == []) <==> AllNonEmpty(q)
    ensures exists totals: seq<Budget> :: ServerRun(q, totals).rest == []
  {
    var t: Budget := USEFUL;
    var enough: seq<Budget> := seq(Backlog(q) + |q|, _ => t);
    ServerDrains(q, enough);
    if AllNonEmpty(q) { Drains(q, enough); } else {
      var i := FirstEmpty(q);
      forall totals: seq<Budget> ensures ClientRun(q, totals).rest != [] { Blocked(q, totals, i); }
    }
  }

  // ---- Delivery by enough carriers ----

  /** So every queue is delivered whole by enough useful carriers, in order. */
  lemma DrainedMeansDelivered(q: seq<Pending>, totals: seq<Budget>)
    requires Sendable(q) && AtLeast(totals, USEFUL) && |totals| >= Backlog(q)
    ensures Assemble(ClientRun(q, totals).chunks, []) == Assembled(Payloads(q), [])
  {
    var r := ClientRun(q, totals);
    Drains(q, totals);
    ClientRunCuts(q, totals);
    CutsConserve(q, NonDummy(r.chunks), r.rest, false, []);
    DummiesDoNotMatter(r.chunks, []);
    OwedNothing(q);
    assert Assemble(r.chunks, []).payloads + [] == Assemble(r.chunks, []).payloads;
  }

  /** One queued payload over as many useful carriers as it has bytes: the non-dummy chunks
      concatenate to it. */
  lemma OnePayloadConcatenates(payload: seq<Byte>, totals: seq<Budget>)
    requires payload != [] && AtLeast(totals, USEFUL) && |totals| >= |payload|
    ensures Bytes(NonDummy(ClientRun([Pending(payload, 0)], totals).chunks)) == payload
  {
    var q := [Pending(payload, 0)];
    var r := ClientRun(q, totals);
    Drains(q, totals);
    ClientRunCuts(q, totals);
    HeadBytes(q, NonDummy(r.chunks));
  }

  lemma {:induction false} HeadBytes(q: seq<Pending>, cs: seq<DenimChunk>)
    requires |q| == 1 && Cuts(q, cs, [], false)
    ensures Bytes(cs) == q[0].bytes
    decreases |cs|
  {
    var c := cs[0];
    if c.IsFinal() {
      assert q[1..] == [];
      assert cs[1..] == [];
      assert Bytes(cs) == c.chunk + [];
    } else {
      HeadBytes(Advance(q, c), cs[1..]);
      assert c.chunk + q[0].bytes[|c.chunk|..] == q[0].bytes;
    }
  }

  // ---- Piece counts ----

  /** All pending pieces but one fill a carrier of at least t bytes. */
  ghost predicate FullPieces(pending: seq<DenimChunk>, t: nat)
    requires t >= USEFUL
  {
    pending == [] || |Bytes(pending)| >= 1 + (|pending| - 1) * (t - USEFUL + 1)
  }

  /** Every payload finished in cs, the pending pieces counted in, has few pieces. */
  ghost predicate FewPieces(cs: seq<DenimChunk>, pending: seq<DenimChunk>, t: nat)
    requires t >= USEFUL
    decreases |cs|
  {
    cs == [] ||
    if cs[0].IsDummy() then FewPieces(cs[1..], pending, t)
    else if cs[0].IsFinal() then
      && cs[0].chunk != [] && FullPieces(pending, t)
      && FewPieces(cs[1..], [], t)
    else FewPieces(cs[1..], pending + [cs[0]], t)
  }

  lemma {:induction false} FewPiecesConcat(x: seq<DenimChunk>, y: seq<DenimChunk>, pending: seq<DenimChunk>, t: nat)
    requires t >= USEFUL
    ensures FewPieces(x + y, pending, t) <==>
            FewPieces(x, pending, t) && FewPieces(y, Assemble(x, pending).pending, t)
    decreases |x|
  {
    if x == [] {
      assert x + y == y;
    } else {
      assert (x + y)[1..] == x[1..] + y;
      FewPiecesConcat(x[1..], y,
        if x[0].IsDummy() then pending else if x[0].IsFinal() then [] else pending + [x[0]], t);
    }
  }

  /** One carrier; started says that it may begin in the middle of a carrier. */
  lemma {:induction false} CarrierPieces(q: seq<Pending>, free: nat, pending: seq<DenimChunk>, t: nat)
    requires t >= USEFUL && Sendable(q) && FullPieces(pending, t)
    requires pending == [] || free >= t - EMPTY_VEC_SIZE
    ensures FewPieces(ClientFill(q, free).chunks, pending, t)
    ensures FullPieces(Assemble(ClientFill(q, free).chunks, pending).pending, t)
    decreases free
  {
    if free >= EMPTY_DENIMCHUNK_SIZE {
      var size := free - EMPTY_DENIMCHUNK_SIZE;
      var cut := ClientFill(q, free);
      if q != [] && |q[0].bytes| <= size {
        SendableTail(q);
        var more := ClientFill(q[1..], size - |q[0].bytes|);
        CarrierPieces(q[1..], size - |q[0].bytes|, [], t);
        assert cut.chunks[1..] == more.chunks;
      } else if q != [] && size > 0 {
        var c := cut.chunks[0];
        assert Assemble(cut.chunks, pending) == Assembled([], pending + [c]);
        BytesConcat(pending, [c]);
        assert Bytes([c]) == c.chunk;
        if pending != [] { OneMorePiece(|pending|, t - USEFUL + 1); }
      }
    }
  }

  lemma OneMorePiece(n: nat, size: nat)
    requires n >= 1
    ensures (n - 1) * size + size == n * size
  {
  }

  lemma {:induction false} RunPieces(q: seq<Pending>, totals: seq<Budget>, pending: seq<DenimChunk>, t: nat)
    requires t >= USEFUL && Sendable(q) && FullPieces(pending, t)
    requires AtLeast(totals, t)
    ensures FewPieces(ClientRun(q, totals).chunks, pending, t)
    ensures FullPieces(Assemble(ClientRun(q, totals).chunks, pending).pending, t)
    decreases |totals|
  {
    if totals != [] {
      var cut := ClientFill(q, totals[0] - EMPTY_VEC_SIZE);
      CarrierPieces(q, totals[0] - EMPTY_VEC_SIZE, pending, t);
      ClientFillCuts(q, totals[0] - EMPTY_VEC_SIZE);
      var open := Assemble(cut.chunks, pending).pending;
      RunPieces(cut.rest, totals[1..], open, t);
      FewPiecesConcat(cut.chunks, ClientRun(cut.rest, totals[1..]).chunks, pending, t);
      AssembleConcat(cut.chunks, ClientRun(cut.rest, totals[1..]).chunks, pending);
    }
  }

  /** The payload that the final chunk c finishes behind pre comes out next, and has been
      cut into few chunks for its length L: 2 + (L - 2) / (t - 20), or one for one byte. */
  ghost predicate FinishedInFew(pre: seq<DenimChunk>, c: DenimChunk, t: nat)
    requires t >= USEFUL
  {
    var pieces := Assemble(pre, []).pending;
    var payload := Bytes(SortDesc(pieces)) + c.chunk;
    && Assemble(pre + [c], []).payloads == Assemble(pre, []).payloads + [payload]
    && (|payload| >= 2 ==> |pieces| + 1 <= 2 + (|payload| - 2) / (t - 20))
    && (|payload| < 2 ==> pieces == [])
  }

  lemma FewPiecesCount(cs: seq<DenimChunk>, t: nat, pre: seq<DenimChunk>, c: DenimChunk, post: seq<DenimChunk>)
    requires t >= USEFUL && FewPieces(cs, [], t) && cs == pre + [c] + post && c.IsFinal()
    ensures FinishedInFew(pre, c, t)
  {
    var pieces := Assemble(pre, []).pending;
    assert pre + [c] + post == pre + ([c] + post);
    FewPiecesConcat(pre, [c] + post, [], t);
    SizeOfSorted(pieces);
    PieceBound(pieces, |c.chunk|, t);
    AssembleConcat(pre, [c], []);
    assert Assemble([c], pieces) == Assembled([Bytes(SortDesc(pieces)) + c.chunk] + [], []);
  }

  /** The piece-count bound: over client carriers of at least t >= 21 bytes every payload is
      finished in few chunks. pre is the stream before the payload's final chunk c. */
  lemma PieceCount(q: seq<Pending>, totals: seq<Budget>, t: nat,
                   pre: seq<DenimChunk>, c: DenimChunk, post: seq<DenimChunk>)
    requires t >= USEFUL && Sendable(q) && AtLeast(totals, t)
    requires ClientRun(q, totals).chunks == pre + [c] + post && c.IsFinal()
    ensures FinishedInFew(pre, c, t)
  {
    RunPieces(q, totals, [], t);
    FewPiecesCount(ClientRun(q, totals).chunks, t, pre, c, post);
  }

  lemma PieceBound(pieces: seq<DenimChunk>, last: nat, t: nat)
    requires t >= USEFUL && FullPieces(pieces, t) && last >= 1
    ensures var l := |Bytes(pieces)| + last;
            && (l >= 2 ==> |pieces| + 1 <= 2 + (l - 2) / (t - 20))
            && (l < 2 ==> pieces == [])
  {
    if pieces != [] {
      DivideBound(|pieces| - 1, t - 20, |Bytes(pieces)| + last - 2);
    }
  }

  lemma DivideBound(n: nat, d: nat, x: nat)
    requires d >= 1 && n * d <= x
    ensures n <= x / d
  {
    assert x < (x / d + 1) * d;
    if n >= x / d + 1 { Scaled(x / d + 1, n, d); }
  }

  lemma Scaled(a: nat, b: nat, d: nat)
    requires a <= b
    ensures a * d <= b * d
  {
  }

  /** The bound depends on bytes and kinds only, so it holds of the server's cutter too. */
  lemma {:induction false} FewPiecesIgnoreLabels(a: seq<DenimChunk>, b: seq<DenimChunk>,
                                                 p: seq<DenimChunk>, p': seq<DenimChunk>, t: nat)
    requires t >= USEFUL && SameButLabels(a, b) && SameButLabels(p, p')
    requires FewPieces(a, p, t)
    ensures FewPieces(b, p', t)
    decreases |a|
  {
    SameSize(p, p');
    if a != [] {
      FewPiecesIgnoreLabels(a[1..], b[1..],
        if a[0].IsDummy() then p else if a[0].IsFinal() then [] else p + [a[0]],
        if a[0].IsDummy() then p' else if a[0].IsFinal() then [] else p' + [b[0]], t);
    }
  }

  lemma {:induction false} SameSize(a: seq<DenimChunk>, b: seq<DenimChunk>)
    requires SameButLabels(a, b)
    ensures |Bytes(a)| == |Bytes(b)|
  {
    if a != [] { SameSize(a[1..], b[1..]); }
  }

  lemma ServerPieceCount(q: seq<Pending>, totals: seq<Budget>, t: nat,
                         pre: seq<DenimChunk>, c: DenimChunk, post: seq<DenimChunk>)
    requires t >= USEFUL && Sendable(q) && AtLeast(totals, t)
    requires ServerRun(q, totals).chunks == pre + [c] + post && c.IsFinal()
    ensures FinishedInFew(pre, c, t)
  {
    RunPieces(q, totals, [], t);
    SameCutterOverRuns(q, q, totals);
    FewPiecesIgnoreLabels(ClientRun(q, totals).chunks, ServerRun(q, totals).chunks, [], [], t);
    FewPiecesCount(ServerRun(q, totals).chunks, t, pre, c, post);
  }

  // ---- Keeping within the page ----

  /** Budgets between t and u, at most m carriers a request, payloads up to l bytes: then
      the pieces of a payload in progress and one more request fit in a page. */
  ghost predicate Sized(t: nat, u: nat, m: nat, l: nat) {
    && t >= USEFUL && u >= t && l >= 2
    && 1 + (l - 2) / (t - 20) + m * ((u - EMPTY_VEC_SIZE) / EMPTY_DENIMCHUNK_SIZE) <= PAGE_SIZE
  }

  /** Pieces of an unfinished payload of at most l bytes. */
  lemma OpenPieces(pending: seq<DenimChunk>, t: nat, l: nat)
    requires t >= USEFUL && l >= 2 && FullPieces(pending, t) && |Bytes(pending)| < l
    ensures |pending| <= 1 + (l - 2) / (t - 20)
  {
    if pending != [] { DivideBound(|pending| - 1, t - 20, l - 2); }
  }

  /** Chunks in one request. */
  lemma {:induction false} RequestChunks(q: seq<Pending>, totals: seq<Budget>, u: Budget)
    requires Sendable(q) && AtMost(totals, u)
    ensures |ClientRun(q, totals).chunks| <= |totals| * ((u - EMPTY_VEC_SIZE) / EMPTY_DENIMCHUNK_SIZE)
    decreases |totals|
  {
    if totals != [] {
      var cut := ClientFill(q, totals[0] - EMPTY_VEC_SIZE);
      ExactFill(q, totals[0], cut);
      ClientFillCuts(q, totals[0] - EMPTY_VEC_SIZE);
      RequestChunks(cut.rest, totals[1..], u);
      var per := (u - EMPTY_VEC_SIZE) / EMPTY_DENIMCHUNK_SIZE;
      assert |cut.chunks| <= per;
      OneMorePiece(|totals|, per);
    }
  }
}
