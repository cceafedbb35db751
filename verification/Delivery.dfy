/** Consequences for whole runs: sizes under which no hypothesis on the page is needed,
    delivery of everything by enough carriers, and when attribution fails. */
module Delivery {
  import opened Bincode
  import opened Limits
  import opened Text
  import opened Chunks
  import opened Cutting
  import opened Streams
  import opened Assembly
  import opened Relay
  import opened Sizing
  import opened DeniablePayloads
  import opened TwoHop

  /** The sizes a deployment keeps to: carriers of t to u bytes, at most m of them in a
      request, payloads of at most l bytes. */
  datatype Sizes = Sizes(t: nat, u: nat, m: nat, l: nat)
  {
    ghost predicate FitPage() { Sized(t, u, m, l) }
  }

  ghost predicate Within(codec: Codec<DeniablePayload>, ev: Event, z: Sizes) {
    match ev
    case Submit(_, p) => |codec.enc(p)| <= z.l
    case Request(_, totals, _) => AtLeast(totals, z.t) && AtMost(totals, z.u) && |totals| <= z.m
    case Deliver(_, _) => true
  }

  /** While the request is handled, every account has keys for the device asked about. */
  ghost predicate HasKeys(env: Surroundings, accounts: set<string>) {
    forall account :: account in accounts ==> env.bundles(Address(account, env.device)).Some?
  }

  ghost predicate Provided(s: State, ev: Event) {
    ev.Request? ==> HasKeys(ev.env, Accounts(s))
  }

  ghost predicate SizedRun(codec: Codec<DeniablePayload>, s: State, events: seq<Event>, z: Sizes) {
    forall i :: 0 <= i < |events| ==> Honest(s, events[i]) && Provided(s, events[i]) && Within(codec, events[i], z)
  }

  /** The buffer holds only the pieces of the payload in progress, few of them. */
  ghost predicate Compact(codec: Codec<DeniablePayload>, n: Node, z: Sizes)
    requires z.FitPage()
  {
    && !HasFinal(n.buffer) && FullPieces(n.buffer, z.t)
    && forall i :: 0 <= i < |n.submitted| ==> |codec.enc(n.submitted[i])| <= z.l
  }

  lemma OwedFirst(codec: Codec<DeniablePayload>, n: Node, z: Sizes)
    requires z.FitPage() && Hop1(codec, n) && Compact(codec, n, z)
    ensures |Bytes(n.buffer)| < z.l
    ensures Assemble(n.buffer, []) == Assembled([], n.buffer)
  {
    AssembleData(n.buffer, []);
    assert [] + n.buffer == n.buffer;
    SizeOfSorted(n.buffer);
    if n.outbox != [] {
      var owed := Owed(n.buffer, n.outbox);
      var all := EncodeAll(codec, n.submitted);
      assert EncodeAll(codec, n.emitted) + ([] + owed) == all;
      assert all[|n.emitted|] == owed[0];
      assert |owed[0]| == |Bytes(n.buffer)| + |n.outbox[0].bytes|;
    }
  }

  /** A request within the sizes never overruns the page. */
  lemma SizedCovers(codec: Codec<DeniablePayload>, n: Node, totals: seq<Budget>, z: Sizes)
    requires z.FitPage() && Hop1(codec, n) && Compact(codec, n, z)
    requires AtMost(totals, z.u) && |totals| <= z.m
    ensures |n.buffer + Carried(n, totals)| <= PAGE_SIZE
  {
    OwedFirst(codec, n, z);
    OpenPieces(n.buffer, z.t, z.l);
    RequestChunks(n.outbox, totals, z.u);
    Scaled(|totals|, z.m, (z.u - EMPTY_VEC_SIZE) / EMPTY_DENIMCHUNK_SIZE);
  }

  lemma NoFinalPending(pending: seq<DenimChunk>)
    requires forall c :: c in pending ==> !c.IsFinal()
    ensures !HasFinal(pending)
  {
    forall i | 0 <= i < |pending| ensures !pending[i].IsFinal() { assert pending[i] in pending; }
  }

  /** After a request the buffer is again just the pieces in progress. */
  lemma AcceptCompact(buffer: seq<DenimChunk>, chunks: seq<DenimChunk>)
    requires !HasFinal(buffer) && NoDummies(buffer) && |buffer + NonDummy(chunks)| <= PAGE_SIZE
    ensures Accept(buffer, NonDummy(chunks)).stored == Assemble(chunks, buffer).pending
    ensures !HasFinal(Accept(buffer, NonDummy(chunks)).stored)
  {
    var cs := NonDummy(chunks);
    DummiesDoNotMatter(chunks, buffer);
    AssembleData(buffer, []);
    assert [] + buffer == buffer;
    AssembleConcat(buffer, cs, []);
    forall c | c in buffer ensures !c.IsFinal() && !c.IsDummy() {}
    PendingIsData(cs, buffer);
    NoFinalPending(Assemble(cs, buffer).pending);
    if HasFinal(cs) { FlushWhole(buffer + cs); } else { AssembleData(cs, buffer); }
  }

  lemma SentCompact(codec: Codec<DeniablePayload>, n: Node, totals: seq<Budget>, ps: seq<DeniablePayload>, z: Sizes)
    requires z.FitPage() && Hop1(codec, n) && Compact(codec, n, z)
    requires AtLeast(totals, z.t) && AtMost(totals, z.u) && |totals| <= z.m
    ensures Compact(codec, Sent(n, totals, ps), z)
  {
    SizedCovers(codec, n, totals, z);
    var chunks := ClientRun(n.outbox, totals).chunks;
    AcceptCompact(n.buffer, chunks);
    RunPieces(n.outbox, totals, n.buffer, z.t);
  }

  ghost predicate AllCompact(codec: Codec<DeniablePayload>, s: State, z: Sizes)
    requires z.FitPage()
  {
    forall a {:trigger Compact(codec, s[a], z)} :: a in s ==> Compact(codec, s[a], z)
  }

  lemma RequestCompact(codec: Codec<DeniablePayload>, s: State, a: Address, totals: seq<Budget>, env: Surroundings,
                       z: Sizes)
    requires z.FitPage() && AllCompact(codec, s, z) && a in s && Hop1(codec, s[a])
    requires Within(codec, Request(a, totals, env), z)
    ensures Covered(s, Request(a, totals, env))
    ensures RequestStep(codec, s, a, totals, env).Some? ==>
      AllCompact(codec, RequestStep(codec, s, a, totals, env).value, z)
  {
    SizedCovers(codec, s[a], totals, z);
    var s' := RequestStep(codec, s, a, totals, env);
    if s'.Some? {
      var ps := Flushed(codec, s[a], totals).value;
      SentCompact(codec, s[a], totals, ps, z);
      RequestStepIs(codec, s, a, totals, env, ps);
      forall d | d in s'.value ensures Compact(codec, s'.value[d], z) {
        assert Compact(codec, s[d], z);
      }
    }
  }

  lemma SizedStep(codec: Codec<DeniablePayload>, s: State, ev: Event, z: Sizes)
    requires codec.RoundTrips() && z.FitPage() && Inv(codec, s) && AllCompact(codec, s, z)
    requires Honest(s, ev) && Within(codec, ev, z)
    ensures Covered(s, ev)
    ensures Step(codec, s, ev).Some? ==> AllCompact(codec, Step(codec, s, ev).value, z)
  {
    match ev
    case Submit(a, p) => SubmitCompact(codec, s, a, p, z);
    case Request(a, totals, env) =>
      assert NodeInv(codec, s[a]);
      RequestCompact(codec, s, a, totals, env, z);
    case Deliver(d, total) => DeliverCompact(codec, s, d, total, z);
  }

  lemma SubmitCompact(codec: Codec<DeniablePayload>, s: State, a: Address, p: DeniablePayload, z: Sizes)
    requires z.FitPage() && AllCompact(codec, s, z) && a in s && |codec.enc(p)| <= z.l
    ensures AllCompact(codec, s[a := SubmitStep(codec, s[a], p)], z)
  {
    assert Compact(codec, s[a], z);
  }

  lemma DeliverCompact(codec: Codec<DeniablePayload>, s: State, d: Address, total: Budget, z: Sizes)
    requires z.FitPage() && AllCompact(codec, s, z) && d in s
    ensures DeliverStep(codec, s[d], total).Some? ==>
      AllCompact(codec, s[d := DeliverStep(codec, s[d], total).value], z)
  {
    assert Compact(codec, s[d], z);
  }

  ghost predicate Steady(codec: Codec<DeniablePayload>, s: State, z: Sizes)
    requires z.FitPage()
  {
    Inv(codec, s) && AllWhole(s, Accounts(s)) && AllCompact(codec, s, z)
  }

  /** Where every account has keys, the honest requests are answered. */
  lemma ProvidedAnswered(codec: Codec<DeniablePayload>, s: State, ev: Event)
    requires codec.RoundTrips() && Inv(codec, s) && AllWhole(s, Accounts(s))
    requires Known(s, ev) && Covered(s, ev) && Provided(s, ev)
    ensures Answered(codec, s, ev)
  {
    if ev.Request? {
      var ps := RequestRoutable(codec, s, ev);
      forall i | 0 <= i < |ps| ensures Answers(ev.env, ps[i]) { assert Routable(ps[i], Accounts(s)); }
    }
  }

  /** A run within the sizes is a good run, and stays compact. */
  lemma {:induction false} SizedIsGood(codec: Codec<DeniablePayload>, s: State, events: seq<Event>, z: Sizes)
    requires codec.RoundTrips() && z.FitPage() && Steady(codec, s, z)
    requires SizedRun(codec, s, events, z)
    ensures GoodRun(codec, s, events)
    ensures var s' := Run(codec, s, events); s'.Some? && Steady(codec, s'.value, z) && s'.value.Keys == s.Keys
    decreases |events|
  {
    if events != [] {
      SizedStep(codec, s, events[0], z);
      ProvidedAnswered(codec, s, events[0]);
      StepKeeps(codec, s, events[0]);
      var s' := Step(codec, s, events[0]).value;
      SameAccounts(s, s');
      SizedTail(codec, s, s', events, z);
      SizedIsGood(codec, s', events[1..], z);
    }
  }

  lemma SizedTail(codec: Codec<DeniablePayload>, s: State, s': State, events: seq<Event>, z: Sizes)
    requires events != [] && SizedRun(codec, s, events, z)
    requires s.Keys == s'.Keys && Accounts(s) == Accounts(s')
    ensures SizedRun(codec, s', events[1..], z)
  {
    forall i | 0 <= i < |events| - 1
      ensures Honest(s', events[1..][i]) && Provided(s', events[1..][i]) && Within(codec, events[1..][i], z)
    {
      assert Honest(s, events[i + 1]) && Provided(s, events[i + 1]) && Within(codec, events[i + 1], z);
    }
  }

  lemma InitialCompact(codec: Codec<DeniablePayload>, s: State, z: Sizes)
    requires Initial(s) && z.FitPage()
    ensures AllCompact(codec, s, z)
  {
  }

  /** Two-hop FIFO from sizes alone: if carriers, requests and payloads keep to sizes that
      fit a page, first-in-first-out delivery needs no further hypothesis on the run. */
  lemma SizedFifo(codec: Codec<DeniablePayload>, s: State, events: seq<Event>, z: Sizes, a: Address, d: Address)
    requires codec.RoundTrips() && Initial(s) && z.FitPage() && SizedRun(codec, s, events, z)
    requires a in s && d in s && UniqueTag(s, a)
    ensures InOrder(codec, s, events, a, d)
  {
    InitialInv(codec, s);
    InitialCompact(codec, s, z);
    SizedIsGood(codec, s, events, z);
    TwoHopFifo(codec, s, events, a, d);
  }

  // ---- Enough carriers deliver everything ----

  function Requests(a: Address, total: Budget, env: Surroundings, n: nat): seq<Event> {
    seq(n, _ => Request(a, [total], env))
  }

  function Deliveries(d: Address, total: Budget, n: nat): seq<Event> {
    seq(n, _ => Deliver(d, total))
  }

  lemma RequestOutbox(codec: Codec<DeniablePayload>, s: State, a: Address, totals: seq<Budget>, env: Surroundings)
    requires a in s && RequestStep(codec, s, a, totals, env).Some?
    ensures var s' := RequestStep(codec, s, a, totals, env).value;
      && a in s' && s'[a].outbox == ClientRun(s[a].outbox, totals).rest && s'[a].submitted == s[a].submitted
      && s'.Keys == s.Keys
  {
  }

  /** One useful carrier by a. */
  lemma RequestDrains(codec: Codec<DeniablePayload>, s: State, a: Address, env: Surroundings, z: Sizes)
    requires codec.RoundTrips() && z.FitPage() && z.m >= 1 && Steady(codec, s, z) && a in s
    requires HasKeys(env, Accounts(s))
    ensures var s' := Step(codec, s, Request(a, [z.t], env));
      && s'.Some? && Steady(codec, s'.value, z) && s'.value.Keys == s.Keys
      && s'.value[a].submitted == s[a].submitted
      && Backlog(s'.value[a].outbox) <= Backlog(s[a].outbox)
      && (s[a].outbox != [] ==> Backlog(s'.value[a].outbox) < Backlog(s[a].outbox))
  {
    var total: Budget := z.t;
    var ev := Request(a, [total], env);
    assert Within(codec, ev, z);
    SizedStep(codec, s, ev, z);
    ProvidedAnswered(codec, s, ev);
    StepKeeps(codec, s, ev);
    RequestOutbox(codec, s, a, [total], env);
    OneCarrier(s[a].outbox, total);
    FillNeverGrows(s[a].outbox, total - EMPTY_VEC_SIZE);
    NodeSendable(codec, s, a);
    if s[a].outbox != [] { CarrierProgress(s[a].outbox, total); }
  }

  lemma NodeSendable(codec: Codec<DeniablePayload>, s: State, a: Address)
    requires Inv(codec, s) && a in s
    ensures Sendable(s[a].outbox) && Sendable(s[a].queue)
  {
    assert NodeInv(codec, s[a]);
  }

  lemma EmptyOutboxEmptyBuffer(codec: Codec<DeniablePayload>, s: State, a: Address, z: Sizes)
    requires z.FitPage() && Steady(codec, s, z) && a in s && s[a].outbox == []
    ensures s[a].buffer == []
  {
    assert NodeInv(codec, s[a]) && Compact(codec, s[a], z);
    OwedFirst(codec, s[a], z);
  }

  /** Requests of one useful carrier each empty the sender's outbox and its buffer. */
  lemma {:induction false} RequestsDrain(codec: Codec<DeniablePayload>, s: State, a: Address, env: Surroundings,
                                         n: nat, z: Sizes)
    requires codec.RoundTrips() && z.FitPage() && z.m >= 1 && Steady(codec, s, z)
    requires a in s && n >= Backlog(s[a].outbox) && HasKeys(env, Accounts(s))
    ensures var s' := Run(codec, s, Requests(a, z.t, env, n));
      && s'.Some? && Steady(codec, s'.value, z) && s'.value.Keys == s.Keys
      && s'.value[a].outbox == [] && s'.value[a].buffer == [] && s'.value[a].submitted == s[a].submitted
    decreases n
  {
    NodeSendable(codec, s, a);
    EmptyBacklog(s[a].outbox);
    if n == 0 {
      EmptyOutboxEmptyBuffer(codec, s, a, z);
    } else {
      var events := Requests(a, z.t, env, n);
      assert events[0] == Request(a, [z.t], env) && events[1..] == Requests(a, z.t, env, n - 1);
      RequestDrains(codec, s, a, env, z);
      SameAccounts(s, Step(codec, s, events[0]).value);
      RequestsDrain(codec, Step(codec, s, events[0]).value, a, env, n - 1, z);
    }
  }

  lemma OneCarrier(q: seq<Pending>, total: Budget)
    ensures ClientRun(q, [total]).rest == ClientFill(q, total - EMPTY_VEC_SIZE).rest
  {
    var cut := ClientFill(q, total - EMPTY_VEC_SIZE);
    assert ClientRun(cut.rest, []) == CutRun([], cut.rest);
  }

  /** Nothing but d's queue and inbox changes. */
  ghost predicate OnlyDelivered(s: State, s': State) {
    && s'.Keys == s.Keys
    && forall a :: a in s ==> (s'[a].submitted == s[a].submitted && s'[a].outbox == s[a].outbox
          && s'[a].buffer == s[a].buffer)
  }

  lemma DeliveryDrains(codec: Codec<DeniablePayload>, s: State, d: Address, total: Budget)
    requires codec.RoundTrips() && Inv(codec, s) && AllWhole(s, Accounts(s)) && total >= USEFUL && d in s
    ensures var s' := Step(codec, s, Deliver(d, total));
      && s'.Some? && Inv(codec, s'.value) && AllWhole(s'.value, Accounts(s'.value)) && OnlyDelivered(s, s'.value)
      && Backlog(s'.value[d].queue) <= Backlog(s[d].queue)
      && (s[d].queue != [] ==> Backlog(s'.value[d].queue) < Backlog(s[d].queue))
  {
    NodeSendable(codec, s, d);
    StepKeeps(codec, s, Deliver(d, total));
    ServerProgress(s[d].queue, total);
  }

  /** Useful deliveries empty a device's queue. */
  lemma {:induction false} DeliveriesDrain(codec: Codec<DeniablePayload>, s: State, d: Address, total: Budget, n: nat)
    requires codec.RoundTrips() && Inv(codec, s) && AllWhole(s, Accounts(s)) && total >= USEFUL
    requires d in s && n >= Backlog(s[d].queue)
    ensures var s' := Run(codec, s, Deliveries(d, total, n));
      && s'.Some? && Inv(codec, s'.value) && AllWhole(s'.value, Accounts(s'.value)) && OnlyDelivered(s, s'.value)
      && s'.value[d].queue == []
    decreases n
  {
    NodeSendable(codec, s, d);
    EmptyBacklog(s[d].queue);
    if n > 0 {
      var events := Deliveries(d, total, n);
      assert events[0] == Deliver(d, total) && events[1..] == Deliveries(d, total, n - 1);
      DeliveryDrains(codec, s, d, total);
      DeliveriesDrain(codec, Step(codec, s, events[0]).value, d, total, n - 1);
    }
  }

  lemma ServerProgress(q: seq<Pending>, total: Budget)
    requires AllNonEmpty(q) && total >= USEFUL
    ensures Backlog(ServerFill(q, total - EMPTY_VEC_SIZE).rest) <= Backlog(q)
    ensures q != [] ==> Backlog(ServerFill(q, total - EMPTY_VEC_SIZE).rest) < Backlog(q)
  {
    var free := total - EMPTY_VEC_SIZE;
    SameCarrier(q, free);
    FillNeverGrows(q, free);
    if q != [] { CarrierProgress(q, total); }
    var rest := ClientFill(q, free).rest;
    if rest != [] { assert Burnt(rest)[1..] == rest[1..]; }
  }

  /** As many requests by a as its outbox holds bytes, each with one carrier of t bytes, and
      then as many deliveries to d as its queue holds bytes by then, give d everything that
      a has submitted for its account. */
  ghost predicate CarriersDeliver(codec: Codec<DeniablePayload>, s: State, a: Address, d: Address, t: Budget,
                                  env: Surroundings) {
    && a in s && d in s
    && var sent := Run(codec, s, Requests(a, t, env, Backlog(s[a].outbox)));
    && sent.Some? && d in sent.value
    && var done := Run(codec, sent.value, Deliveries(d, t, Backlog(sent.value[d].queue)));
    && done.Some? && d in done.value && Inbound(done.value, d, a) == Addressed(s[a].submitted, d.account)
  }

  /** Everything gets through from any state a sized run reaches. */
  lemma EnoughCarriersDeliver(codec: Codec<DeniablePayload>, s: State, events: seq<Event>, z: Sizes,
                              a: Address, d: Address, env: Surroundings)
    requires codec.RoundTrips() && Initial(s) && z.FitPage() && z.m >= 1 && SizedRun(codec, s, events, z)
    requires a in s && d in s && UniqueTag(s, a) && HasKeys(env, Accounts(s))
    ensures var s' := Run(codec, s, events); s'.Some? && CarriersDeliver(codec, s'.value, a, d, z.t, env)
  {
    InitialInv(codec, s);
    InitialCompact(codec, s, z);
    SizedIsGood(codec, s, events, z);
    var s' := Run(codec, s, events).value;
    SameTags(s, s', a);
    SameAccounts(s, s');
    Drain(codec, s', z, a, d, env);
  }

  lemma Drain(codec: Codec<DeniablePayload>, s: State, z: Sizes, a: Address, d: Address, env: Surroundings)
    requires codec.RoundTrips() && z.FitPage() && z.m >= 1 && Steady(codec, s, z)
    requires a in s && d in s && UniqueTag(s, a) && HasKeys(env, Accounts(s))
    ensures CarriersDeliver(codec, s, a, d, z.t, env)
  {
    var n := Backlog(s[a].outbox);
    RequestsDrain(codec, s, a, env, n, z);
    var sent := Run(codec, s, Requests(a, z.t, env, n)).value;
    var k := Backlog(sent[d].queue);
    DeliveriesDrain(codec, sent, d, z.t, k);
    var done := Run(codec, sent, Deliveries(d, z.t, k)).value;
    SameTags(s, done, a);
    InvGivesAll(codec, done, a, d);
  }

  // ---- When attribution fails ----

  lemma HeadCarrier(e: seq<Byte>, q: seq<Pending>)
    requires e != [] && AllNonEmpty(q)
    ensures ClientFill([Pending(e, 0)] + q, |e| + EMPTY_DENIMCHUNK_SIZE) == Cut([FinalChunk(e)], 0, q)
  {
    var all := [Pending(e, 0)] + q;
    assert all[1..] == q;
    ClientFillCases(all, |e| + EMPTY_DENIMCHUNK_SIZE);
    assert ClientFill(q, 0) == Cut([], 0, q);
  }

  lemma WholePayloadCarrier(e: seq<Byte>)
    requires e != []
    ensures ClientFill([Pending(e, 0)], |e| + EMPTY_DENIMCHUNK_SIZE) == Cut([FinalChunk(e)], 0, [])
    ensures ServerFill([Pending(e, 0)], |e| + EMPTY_DENIMCHUNK_SIZE) == Cut([FinalChunk(e)], 0, [])
  {
    assert [Pending(e, 0)] + [] == [Pending(e, 0)];
    HeadCarrier(e, []);
    SameCarrier([Pending(e, 0)], |e| + EMPTY_DENIMCHUNK_SIZE);
  }

  lemma WholePayloadArrives(e: seq<Byte>)
    ensures NonDummy([FinalChunk(e)]) == [FinalChunk(e)]
    ensures Accept([], [FinalChunk(e)]) == Received([e], [])
    ensures Handle([], [FinalChunk(e)]) == Received([e], [])
  {
    var c := FinalChunk(e);
    assert NonDummy([c]) == [c];
    assert [] + [c] == [c];
    OneFinal(c);
    FlushWhole([c]);
    HandleIsAssemble([], [c]);
  }

  lemma OneFinal(c: DenimChunk)
    requires c.IsFinal()
    ensures Assemble([c], []) == Assembled([c.chunk], [])
    ensures HasFinal([c])
  {
    assert [c][0].IsFinal() && [c][1..] == [];
    assert Assemble([c][1..], []) == Assembled([], []);
    assert Bytes(SortDesc([])) + c.chunk == c.chunk;
  }

  /** Attribution is exact: the sender shown by an envelope is account and device id modulo
      256. If another device b shares a's tag, then b's first message to d counts as a's. */
  lemma SharedTagMisattributes(codec: Codec<DeniablePayload>, s: State, a: Address, b: Address, d: Address,
                               env: Surroundings)
    returns (events: seq<Event>)
    requires codec.RoundTrips() && Initial(s) && a in s && b in s && d in s && a != b && SameTag(a, b)
    ensures GoodRun(codec, s, events)
    ensures var s' := Run(codec, s, events);
      s'.Some? && a in s'.value && d in s'.value
      && !(Inbound(s'.value, d, a) <= Addressed(s'.value[a].submitted, d.account))
  {
    var p := SignalMessage(0, 0, 0, d.account, Encode([]));
    var r := Envelope(0, b.account, DeviceByte(b.device), d.account, env.timestamp, env.serverTimestamp, []);
    var total: Budget := |codec.enc(p)| + EMPTY_VEC_SIZE + EMPTY_DENIMCHUNK_SIZE;
    var total': Budget := |codec.enc(r)| + EMPTY_VEC_SIZE + EMPTY_DENIMCHUNK_SIZE;
    var s1 := OneSubmit(codec, s, a, b, d, p);
    var s2 := OneRequest(codec, s1, b, p, d, total, r, env);
    var s3 := OneDelivery(codec, s2, d, r, total');
    events := [Submit(b, p), Request(b, [total], env), Deliver(d, total')];
    ThreeSteps(codec, s, Submit(b, p), s1, Request(b, [total], env), s2, Deliver(d, total'), s3);
    SameTagIs(a, b);
    Misread(s3, a, d, r);
  }

  /** One message that reads as a's, though a submitted nothing. */
  lemma Misread(s: State, a: Address, d: Address, r: DeniablePayload)
    requires a in s && d in s && s[a].submitted == [] && s[d].received == [r]
    requires r.Envelope? && r.kind == 0 && r.body == [] && r.sourceAccount == a.account
      && r.sourceDevice == a.device % 256
    ensures !(Inbound(s, d, a) <= Addressed(s[a].submitted, d.account))
  {
    assert SentBy([r], a) == [Message(0, [])];
  }

  lemma OneSubmit(codec: Codec<DeniablePayload>, s: State, a: Address, b: Address, d: Address, p: DeniablePayload)
    returns (s': State)
    requires Initial(s) && a in s && b in s && d in s && a != b && p == SignalMessage(0, 0, 0, d.account, Encode([]))
    ensures Step(codec, s, Submit(b, p)) == Some(s') && s'.Keys == s.Keys
    ensures GoodStep(codec, s, Submit(b, p))
    ensures s'[b].outbox == [Pending(codec.enc(p), 0)] && s'[b].buffer == [] && s'[a].submitted == []
    ensures s'[d].queue == [] && s'[d].inbox == [] && s'[d].received == []
  {
    assert d.account in Accounts(s);
    s' := s[b := SubmitStep(codec, s[b], p)];
    var q := [Pending(codec.enc(p), 0)];
    assert [] + q == q;
  }

  ghost predicate GoodStep(codec: Codec<DeniablePayload>, s: State, ev: Event) {
    Honest(s, ev) && Covered(s, ev) && Answered(codec, s, ev)
  }

  lemma ThreeSteps(codec: Codec<DeniablePayload>, s: State, e: Event, s1: State, f: Event, s2: State, g: Event,
                   s3: State)
    requires GoodStep(codec, s, e) && Step(codec, s, e) == Some(s1)
    requires GoodStep(codec, s1, f) && Step(codec, s1, f) == Some(s2)
    requires GoodStep(codec, s2, g) && Step(codec, s2, g) == Some(s3)
    ensures Run(codec, s, [e, f, g]) == Some(s3) && GoodRun(codec, s, [e, f, g])
  {
    assert [e, f, g][1..] == [f, g] && [f, g][1..] == [g] && [g][1..] == [];
    assert Run(codec, s3, []) == Some(s3) && GoodRun(codec, s3, []);
    assert Run(codec, s2, [g]) == Some(s3) && GoodRun(codec, s2, [g]);
    assert Run(codec, s1, [f, g]) == Some(s3) && GoodRun(codec, s1, [f, g]);
  }

  /** One payload in an outbox, in a carrier just large enough: the server reads it. */
  lemma OneFlush(codec: Codec<DeniablePayload>, n: Node, p: DeniablePayload, total: Budget)
    requires codec.RoundTrips() && n.outbox == [Pending(codec.enc(p), 0)] && n.buffer == []
    requires total == |codec.enc(p)| + EMPTY_VEC_SIZE + EMPTY_DENIMCHUNK_SIZE
    ensures Carried(n, [total]) == [FinalChunk(codec.enc(p))] && ClientRun(n.outbox, [total]).rest == []
    ensures Accept(n.buffer, Carried(n, [total])) == Received([codec.enc(p)], [])
    ensures Flushed(codec, n, [total]) == Some([p])
  {
    var e := codec.enc(p);
    assert e != [];
    WholePayloadCarrier(e);
    WholePayloadArrives(e);
    var cut := ClientFill(n.outbox, total - EMPTY_VEC_SIZE);
    assert ClientRun(cut.rest, []) == CutRun([], []);
    assert ClientRun(n.outbox, [total]) == CutRun([FinalChunk(e)] + [], []);
    OneDecoded(codec, p);
  }

  lemma OneDecoded(codec: Codec<DeniablePayload>, p: DeniablePayload)
    requires codec.RoundTrips()
    ensures DecodeAll(codec, [codec.enc(p)]) == Some([p])
  {
    var one: seq<seq<Byte>> := [codec.enc(p)];
    assert one[1..] == [] && [p] + [] == [p];
  }

  lemma OneRoute(b: Address, p: DeniablePayload, account: string, env: Surroundings, accounts: set<string>)
    requires p == SignalMessage(0, 0, 0, account, Encode([])) && account in accounts
    ensures var r := Envelope(0, b.account, DeviceByte(b.device), account, env.timestamp, env.serverTimestamp, []);
      RouteAll(b, [p], env, accounts) == Some([Routed(account, r)]) && ForAccount([Routed(account, r)], account) == [r]
  {
    var r := Envelope(0, b.account, DeviceByte(b.device), account, env.timestamp, env.serverTimestamp, []);
    assert Decode(Encode([])) == Some([]);
    assert [p][1..] == [];
    assert [Routed(account, r)] + [] == [Routed(account, r)] && [r] + [] == [r];
  }

  lemma OneRequest(codec: Codec<DeniablePayload>, s: State, b: Address, p: DeniablePayload, d: Address,
                   total: Budget, r: DeniablePayload, env: Surroundings) returns (s': State)
    requires codec.RoundTrips() && b in s && d in s && p == SignalMessage(0, 0, 0, d.account, Encode([]))
    requires s[b].outbox == [Pending(codec.enc(p), 0)] && s[b].buffer == []
    requires total == |codec.enc(p)| + EMPTY_VEC_SIZE + EMPTY_DENIMCHUNK_SIZE
    requires s[d].queue == [] && s[d].received == []
    requires r == Envelope(0, b.account, DeviceByte(b.device), d.account, env.timestamp, env.serverTimestamp, [])
    ensures Step(codec, s, Request(b, [total], env)) == Some(s') && s'.Keys == s.Keys
    ensures GoodStep(codec, s, Request(b, [total], env))
    ensures s'[d].queue == [Pending(codec.enc(r), 0)] && s'[d].inbox == s[d].inbox && s'[d].received == []
    ensures forall a :: a in s ==> s'[a].submitted == s[a].submitted
  {
    assert d.account in Accounts(s);
    OneFlush(codec, s[b], p, total);
    OneRoute(b, p, d.account, env, Accounts(s));
    RequestStepIs(codec, s, b, [total], env, [p]);
    s' := Spread(codec, s[b := Passed(Sent(s[b], [total], [p]), [p])], [Routed(d.account, r)]);
    OneSpread(codec, s, b, d, total, p, r);
    OneGood(codec, s, b, p, total, env);
  }

  lemma OneGood(codec: Codec<DeniablePayload>, s: State, b: Address, p: DeniablePayload, total: Budget,
                env: Surroundings)
    requires b in s && p.SignalMessage? && Flushed(codec, s[b], [total]) == Some([p])
    requires Carried(s[b], [total]) == [FinalChunk(codec.enc(p))] && s[b].buffer == []
    ensures GoodStep(codec, s, Request(b, [total], env))
  {
    assert |s[b].buffer + Carried(s[b], [total])| == 1;
  }

  lemma OneSpread(codec: Codec<DeniablePayload>, s: State, b: Address, d: Address, total: Budget, p: DeniablePayload,
                  r: DeniablePayload)
    requires b in s && d in s && s[d].queue == [] && s[d].received == []
    requires ForAccount([Routed(d.account, r)], d.account) == [r]
    ensures var s' := Spread(codec, s[b := Passed(Sent(s[b], [total], [p]), [p])], [Routed(d.account, r)]);
      && s'.Keys == s.Keys
      && s'[d].queue == [Pending(codec.enc(r), 0)] && s'[d].inbox == s[d].inbox && s'[d].received == []
      && forall a :: a in s ==> s'[a].submitted == s[a].submitted
  {
    assert [] + Fresh(EncodeAll(codec, [r])) == [Pending(codec.enc(r), 0)];
  }

  lemma OneDelivery(codec: Codec<DeniablePayload>, s: State, d: Address, r: DeniablePayload, total: Budget)
    returns (s': State)
    requires codec.RoundTrips() && d in s && r.Envelope?
    requires s[d].queue == [Pending(codec.enc(r), 0)] && s[d].inbox == [] && s[d].received == []
    requires total == |codec.enc(r)| + EMPTY_VEC_SIZE + EMPTY_DENIMCHUNK_SIZE
    ensures Step(codec, s, Deliver(d, total)) == Some(s') && s'.Keys == s.Keys
    ensures s'[d].received == [r]
    ensures forall a :: a in s ==> s'[a].submitted == s[a].submitted
  {
    var f := codec.enc(r);
    assert f != [];
    WholePayloadCarrier(f);
    WholePayloadArrives(f);
    var one: seq<seq<Byte>> := [f];
    assert one[1..] == [] && [r] + [] == [r];
    assert DecodeAll(codec, [f]) == Some([r]);
    assert Arrives([r][0]);
    var n := DeliverStep(codec, s[d], total);
    assert [] + [r] == [r];
    s' := s[d := n.value];
  }

  /** Whatever happens in a good run, d has a's messages in order. */
  ghost predicate AlwaysInOrder(codec: Codec<DeniablePayload>, s: State, a: Address, d: Address) {
    forall events {:trigger InOrder(codec, s, events, a, d)} :: GoodRun(codec, s, events) ==>
      InOrder(codec, s, events, a, d)
  }

  /** Every good run delivers a's messages to d in order exactly when no other device shows
      a's account and a's device id modulo 256. */
  lemma FifoExactly(codec: Codec<DeniablePayload>, s: State, a: Address, d: Address)
    requires codec.RoundTrips() && Initial(s) && a in s && d in s
    ensures AlwaysInOrder(codec, s, a, d) <==> UniqueTag(s, a)
  {
    if UniqueTag(s, a) {
      forall events | GoodRun(codec, s, events) ensures InOrder(codec, s, events, a, d) {
        TwoHopFifo(codec, s, events, a, d);
      }
    } else {
      var b :| b in s && SameTag(a, b) && a != b;
      var events := SharedTagMisattributes(codec, s, a, b, d, Surroundings(0, 0, 0, _ => None));
      assert !InOrder(codec, s, events, a, d);
    }
  }

  // ---- Device ids that fit a byte ----

  ghost predicate SmallIds(s: State) {
    forall a :: a in s ==> a.device < 256
  }

  /** Then every device has a tag of its own. */
  lemma SmallIdsUnique(s: State, a: Address)
    requires SmallIds(s) && a in s
    ensures UniqueTag(s, a)
  {
    forall b | b in s && SameTag(a, b) ensures a == b { SameTagIs(a, b); }
  }

  /** The messages among received payloads that name a sender's account and device id. */
  function FromDevice(ps: seq<DeniablePayload>, sender: Address): seq<Message> {
    if ps == [] then []
    else (if ps[0].Envelope? && ps[0].sourceAccount == sender.account && ps[0].sourceDevice == sender.device
          then [Message(ps[0].kind, ps[0].body)] else [])
         + FromDevice(ps[1..], sender)
  }

  lemma {:induction false} FromDeviceIsSentBy(ps: seq<DeniablePayload>, sender: Address)
    requires sender.device < 256
    ensures FromDevice(ps, sender) == SentBy(ps, sender)
  {
    if ps != [] { FromDeviceIsSentBy(ps[1..], sender); }
  }

  /** First-in-first-out delivery by the device ids themselves, while these fit a byte. */
  lemma SmallIdsFifo(codec: Codec<DeniablePayload>, s: State, events: seq<Event>, a: Address, d: Address)
    requires codec.RoundTrips() && Initial(s) && GoodRun(codec, s, events) && SmallIds(s) && a in s && d in s
    ensures var s' := Run(codec, s, events);
      && s'.Some? && a in s'.value && d in s'.value
      && FromDevice(s'.value[d].received, a) <= Addressed(s'.value[a].submitted, d.account)
  {
    SmallIdsUnique(s, a);
    TwoHopFifo(codec, s, events, a, d);
    FromDeviceIsSentBy(Run(codec, s, events).value[d].received, a);
  }
}
