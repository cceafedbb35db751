/** The whole transport as a state machine: clients submit payloads, send requests whose
    messages carry chunks, and receive messages that carry chunks. Each request and each
    delivery is one atomic step. */
module TwoHop {
  import opened Bincode
  import opened Limits
  import opened Chunks
  import opened Cutting
  import opened Streams
  import opened Assembly
  import opened Relay
  import opened DeniablePayloads

  /** One device: its two client tables, and the server's chunk buffer and payload queue
      for it. The five lists record what happened: the payloads the device submitted, those
      a flush of its buffer read, those of them the server routed, and the payloads queued
      for the device and received by it. */
  datatype Node = Node(
    outbox: seq<Pending>, inbox: seq<DenimChunk>,
    buffer: seq<DenimChunk>, queue: seq<Pending>,
    submitted: seq<DeniablePayload>, emitted: seq<DeniablePayload>, passed: seq<DeniablePayload>,
    routed: seq<DeniablePayload>, received: seq<DeniablePayload>)

  type State = map<Address, Node>

  function Accounts(s: State): set<string> {
    set a | a in s :: a.account
  }

  datatype Event =
    | Submit(sender: Address, payload: DeniablePayload)
    | Request(sender: Address, totals: seq<Budget>, env: Surroundings)
    | Deliver(receiver: Address, total: Budget)

  function Enqueue(codec: Codec<DeniablePayload>, n: Node, ps: seq<DeniablePayload>): Node {
    n.(queue := n.queue + Fresh(EncodeAll(codec, ps)), routed := n.routed + ps)
  }

  /** Newly stored payloads start at label 0. */
  function Fresh(bs: seq<seq<Byte>>): (q: seq<Pending>)
    ensures |q| == |bs| && forall i :: 0 <= i < |bs| ==> q[i] == Pending(bs[i], 0)
  {
    seq(|bs|, i requires 0 <= i < |bs| => Pending(bs[i], 0))
  }

  /** The chunks of one request: all its messages' chunks in order, dummies dropped. */
  function Carried(n: Node, totals: seq<Budget>): seq<DenimChunk> {
    NonDummy(ClientRun(n.outbox, totals).chunks)
  }

  /** The payloads a request makes the server read from the sender's buffer. */
  function Flushed(codec: Codec<DeniablePayload>, n: Node, totals: seq<Budget>): Option<seq<DeniablePayload>> {
    DecodeAll(codec, Accept(n.buffer, Carried(n, totals)).payloads)
  }

  /** The sender's side and its chunk buffer after a request that made the server read ps. */
  function Sent(n: Node, totals: seq<Budget>, ps: seq<DeniablePayload>): Node {
    n.(outbox := ClientRun(n.outbox, totals).rest,
       buffer := Accept(n.buffer, Carried(n, totals)).stored,
       emitted := n.emitted + ps)
  }

  function Passed(n: Node, ps: seq<DeniablePayload>): Node {
    n.(passed := n.passed + ps)
  }

  function SubmitStep(codec: Codec<DeniablePayload>, n: Node, p: DeniablePayload): Node {
    n.(outbox := n.outbox + [Pending(codec.enc(p), 0)], submitted := n.submitted + [p])
  }

  function DeliverStep(codec: Codec<DeniablePayload>, n: Node, total: Budget): Option<Node> {
    var cut := ServerFill(n.queue, total - EMPTY_VEC_SIZE);
    var r := Handle(n.inbox, NonDummy(cut.chunks));
    var payloads := DecodeAll(codec, r.payloads);
    if payloads.None? || exists i :: 0 <= i < |payloads.value| && !Arrives(payloads.value[i]) then None
    else Some(n.(queue := cut.rest, inbox := r.stored, received := n.received + payloads.value))
  }

  function RequestStep(codec: Codec<DeniablePayload>, s: State, a: Address, totals: seq<Budget>,
                       env: Surroundings): Option<State>
    requires a in s
  {
    var payloads := Flushed(codec, s[a], totals);
    if payloads.None? then None else
    var routes := RouteAll(a, payloads.value, env, Accounts(s));
    if routes.None? then None else
    Some(Spread(codec, s[a := Passed(Sent(s[a], totals, payloads.value), payloads.value)], routes.value))
  }

  /** Every device gets its account's payloads. */
  function Spread(codec: Codec<DeniablePayload>, s: State, routes: seq<Routed>): State {
    map d | d in s :: Enqueue(codec, s[d], ForAccount(routes, d.account))
  }

  /** One step, or None where the program would fail. */
  function Step(codec: Codec<DeniablePayload>, s: State, ev: Event): Option<State> {
    match ev
    case Submit(a, p) =>
      if a !in s then None else Some(s[a := SubmitStep(codec, s[a], p)])
    case Request(a, totals, env) =>
      if a !in s then None else RequestStep(codec, s, a, totals, env)
    case Deliver(d, total) =>
      if d !in s then None else
      var n := DeliverStep(codec, s[d], total);
      if n.None? then None else Some(s[d := n.value])
  }

  /** A step that may fail. A request fails after its flush, so what the flush read is gone
      when it cannot be routed. */
  function Attempt(codec: Codec<DeniablePayload>, s: State, ev: Event): State {
    var next := Step(codec, s, ev);
    if next.Some? then next.value
    else if ev.Request? && ev.sender in s && Flushed(codec, s[ev.sender], ev.totals).Some? then
      Dropped(codec, s, ev.sender, ev.totals)
    else s
  }

  function Dropped(codec: Codec<DeniablePayload>, s: State, a: Address, totals: seq<Budget>): State
    requires a in s && Flushed(codec, s[a], totals).Some?
  {
    s[a := Sent(s[a], totals, Flushed(codec, s[a], totals).value)]
  }

  /** Kinds the receiving client handles. */
  predicate Arrives(p: DeniablePayload) { p.Envelope? || p.KeyResponse? }

  function Run(codec: Codec<DeniablePayload>, s: State, events: seq<Event>): Option<State>
    decreases |events|
  {
    if events == [] then Some(s) else
    var next := Step(codec, s, events[0]);
    if next.None? then None else Run(codec, next.value, events[1..])
  }

  /** Nothing submitted, nothing stored. */
  ghost predicate Initial(s: State) {
    forall a :: a in s ==> s[a] == Node([], [], [], [], [], [], [], [], [])
  }

  // ---- Hypotheses on a run ----

  /** A known device acts. */
  predicate Known(s: State, ev: Event) {
    match ev
    case Submit(a, _) => a in s
    case Request(a, _, _) => a in s
    case Deliver(d, _) => d in s
  }

  /** Known devices act, and submit messages for known accounts with base64 content, and
      requests for the keys of known accounts. */
  ghost predicate Honest(s: State, ev: Event) {
    Known(s, ev) && (ev.Submit? ==> Routable(ev.payload, Accounts(s)))
  }

  /** The key requests among the payloads a request flushes can be answered. */
  ghost predicate Answered(codec: Codec<DeniablePayload>, s: State, ev: Event) {
    ev.Request? && ev.sender in s && Flushed(codec, s[ev.sender], ev.totals).Some? ==>
      AllAnswered(ev.env, Flushed(codec, s[ev.sender], ev.totals).value)
  }

  /** Whenever the server flushes a sender's buffer, the page suffices. */
  ghost predicate Covered(s: State, ev: Event) {
    ev.Request? && ev.sender in s && HasFinal(Carried(s[ev.sender], ev.totals)) ==>
      PageSuffices(s[ev.sender].buffer + Carried(s[ev.sender], ev.totals))
  }

  ghost predicate GoodRun(codec: Codec<DeniablePayload>, s: State, events: seq<Event>)
    decreases |events|
  {
    events != [] ==>
      && Honest(s, events[0]) && Covered(s, events[0]) && Answered(codec, s, events[0])
      && (Step(codec, s, events[0]).Some? ==> GoodRun(codec, Step(codec, s, events[0]).value, events[1..]))
  }

  // ---- Invariants ----

  /** Chunks of kinds the server can assemble. */
  ghost predicate AllKnown(cs: seq<DenimChunk>) {
    forall c {:trigger c in cs} :: c in cs ==> c.flags <= 2
  }

  /** First hop: payloads emitted, then those the buffer already completes, then those
      still owed by buffer and outbox, are the payloads submitted. */
  ghost predicate Hop1(codec: Codec<DeniablePayload>, n: Node) {
    var a := Assemble(n.buffer, []);
    && Sendable(n.outbox) && NoDummies(n.buffer) && AllKnown(n.buffer)
    && Precedes(a.pending, n.outbox)
    && EncodeAll(codec, n.emitted) + (a.payloads + Owed(a.pending, n.outbox)) == EncodeAll(codec, n.submitted)
  }

  /** Second hop: payloads received, then those owed by queue and inbox, are those routed. */
  ghost predicate Hop2(codec: Codec<DeniablePayload>, n: Node) {
    && Sendable(n.queue) && Precedes(n.inbox, n.queue)
    && EncodeAll(codec, n.received) + Owed(n.inbox, n.queue) == EncodeAll(codec, n.routed)
    && Deliverable(n.routed)
  }

  /** No other device of s shows the same sender in an envelope. */
  ghost predicate UniqueTag(s: State, a: Address) {
    forall b :: b in s && SameTag(a, b) ==> a == b
  }

  /** Attribution: of what was routed to d, the part naming a is what the server passed on
      from a for d's account. */
  ghost predicate Attributed(s: State, a: Address, d: Address)
    requires a in s && d in s
  {
    UniqueTag(s, a) ==> SentBy(s[d].routed, a) == Addressed(s[a].passed, d.account)
  }

  ghost predicate Inv(codec: Codec<DeniablePayload>, s: State) {
    AllNodes(codec, s) && AllAttributed(s)
  }

  ghost predicate AllNodes(codec: Codec<DeniablePayload>, s: State) {
    forall a {:trigger NodeInv(codec, s[a])} :: a in s ==> NodeInv(codec, s[a])
  }

  ghost predicate AllAttributed(s: State) {
    forall a, d {:trigger Attributed(s, a, d)} :: a in s && d in s ==> Attributed(s, a, d)
  }

  ghost predicate NodeInv(codec: Codec<DeniablePayload>, n: Node) {
    Hop1(codec, n) && Hop2(codec, n)
  }

  /** Nothing of a device was lost by a request, and none of what it still owes will be for
      want of an account. */
  ghost predicate Whole(n: Node, accounts: set<string>) {
    n.passed == n.emitted && AllRoutable(n.submitted, accounts)
  }

  ghost predicate AllWhole(s: State, accounts: set<string>) {
    forall a {:trigger Whole(s[a], accounts)} :: a in s ==> Whole(s[a], accounts)
  }

  // ---- Steps keep the first hop ----

  lemma {:induction false} SendableConcat(q: seq<Pending>, r: seq<Pending>)
    requires Sendable(q) && AllNonEmpty(r) && forall i :: 0 <= i < |r| ==> r[i].order == 0
    ensures Sendable(q + r)
  {
  }

  lemma {:induction false} FreshPayloads(bs: seq<seq<Byte>>)
    ensures Payloads(Fresh(bs)) == bs
  {
    if bs != [] {
      assert Fresh(bs)[1..] == Fresh(bs[1..]);
      FreshPayloads(bs[1..]);
    }
  }

  lemma SubmitKeepsHop1(codec: Codec<DeniablePayload>, n: Node, p: DeniablePayload)
    requires codec.RoundTrips() && Hop1(codec, n)
    ensures Hop1(codec, SubmitStep(codec, n, p))
  {
    var q, a := n.outbox, Assemble(n.buffer, []);
    var more := [Pending(codec.enc(p), 0)];
    SendableConcat(q, more);
    OwedConcat(a.pending, q, more);
    assert Payloads(more) == [codec.enc(p)];
    EncodeAllConcat(codec, n.submitted, [p]);
    var e, o := EncodeAll(codec, n.emitted), Owed(a.pending, q);
    assert e + (a.payloads + (o + [codec.enc(p)])) == e + (a.payloads + o) + [codec.enc(p)];
    assert Precedes(a.pending, q + more) by { if q != [] { assert (q + more)[0] == q[0]; } }
  }

  /** What the next chunks add to a buffer that stays whole. */
  lemma CarriedConserves(n: Node, totals: seq<Budget>)
    requires Sendable(n.outbox) && NoDummies(n.buffer) && Precedes(Assemble(n.buffer, []).pending, n.outbox)
    ensures var cs := Carried(n, totals); var q' := ClientRun(n.outbox, totals).rest;
            var a := Assemble(n.buffer, []); var all := Assemble(n.buffer + cs, []);
            && Sendable(q') && NoDummies(n.buffer + cs) && Precedes(all.pending, q')
            && all.payloads + Owed(all.pending, q') == a.payloads + Owed(a.pending, n.outbox)
  {
    var cs, q' := Carried(n, totals), ClientRun(n.outbox, totals).rest;
    var a := Assemble(n.buffer, []);
    ClientRunCuts(n.outbox, totals);
    CutsConserve(n.outbox, cs, q', false, a.pending);
    AssembleConcat(n.buffer, cs, []);
    var b := Assemble(cs, a.pending);
    assert a.payloads + b.payloads + Owed(b.pending, q') == a.payloads + (b.payloads + Owed(b.pending, q'));
  }

  lemma SamePendingSameOwed(p: seq<DenimChunk>, p': seq<DenimChunk>, q: seq<Pending>)
    requires multiset(p) == multiset(p') && Precedes(p, q)
    ensures Precedes(p', q) && Owed(p', q) == Owed(p, q)
  {
    SortIgnoresOrder(p, p');
    DistinctIsBag(p, p');
    forall c | c in p' ensures c in p { assert c in multiset(p'); }
    if q == [] { assert |multiset(p')| == |p'|; assert multiset(p') == multiset{}; }
  }

  lemma AcceptFaithful(buffer: seq<DenimChunk>, cs: seq<DenimChunk>)
    requires NoDummies(buffer + cs) && (HasFinal(cs) ==> PageSuffices(buffer + cs))
    ensures var r := Accept(buffer, cs); var all := Assemble(buffer + cs, []); var later := Assemble(r.stored, []);
            && r.payloads + later.payloads == all.payloads
            && multiset(later.pending) == multiset(all.pending)
            && NoDummies(r.stored)
  {
    if HasFinal(cs) { FlushFaithful(buffer + cs); } else {
      assert [] + Assemble(buffer + cs, []).payloads == Assemble(buffer + cs, []).payloads;
    }
  }

  lemma AcceptKnown(n: Node, totals: seq<Budget>)
    requires Sendable(n.outbox) && NoDummies(n.buffer) && AllKnown(n.buffer)
    ensures AllKnown(n.buffer + Carried(n, totals))
    ensures AllKnown(Accept(n.buffer, Carried(n, totals)).stored)
  {
    var cs := Carried(n, totals);
    ClientRunCuts(n.outbox, totals);
    CutsNoDummy(n.outbox, cs, ClientRun(n.outbox, totals).rest, false);
    var all := n.buffer + cs;
    var n := Min(|all|, PAGE_SIZE);
    PendingIsData(all[..n], []);
    forall c | c in Flush(all).stored ensures c in all {
      assert c in all[n..] || c in all[..n];
    }
  }

  lemma RequestKeepsHop1(codec: Codec<DeniablePayload>, n: Node, totals: seq<Budget>) returns (ps: seq<DeniablePayload>)
    requires codec.RoundTrips() && Hop1(codec, n)
    requires HasFinal(Carried(n, totals)) ==> PageSuffices(n.buffer + Carried(n, totals))
    ensures DecodeAll(codec, Accept(n.buffer, Carried(n, totals)).payloads) == Some(ps)
    ensures n.emitted + ps <= n.submitted
    ensures Hop1(codec, Sent(n, totals, ps))
  {
    var cs, q' := Carried(n, totals), ClientRun(n.outbox, totals).rest;
    var a, all := Assemble(n.buffer, []), Assemble(n.buffer + cs, []);
    var r := Accept(n.buffer, cs);
    var later := Assemble(r.stored, []);
    CarriedConserves(n, totals);
    AcceptFaithful(n.buffer, cs);
    AcceptKnown(n, totals);
    SamePendingSameOwed(all.pending, later.pending, q');
    var o := Owed(later.pending, q');
    Regroup(r.payloads, later.payloads, o);
    ps := EncodedPart(codec, n.emitted, r.payloads, later.payloads + o, n.submitted);
  }

  // ---- Steps keep the second hop ----

  lemma EnqueueKeepsHop2(codec: Codec<DeniablePayload>, n: Node, ps: seq<DeniablePayload>)
    requires codec.RoundTrips() && Hop2(codec, n) && Deliverable(ps)
    ensures Hop2(codec, Enqueue(codec, n, ps))
  {
    var more := Fresh(EncodeAll(codec, ps));
    assert AllNonEmpty(more) by {
      forall i | 0 <= i < |more| ensures more[i].bytes != [] { assert codec.enc(ps[i]) != []; }
    }
    SendableConcat(n.queue, more);
    OwedConcat(n.inbox, n.queue, more);
    FreshPayloads(EncodeAll(codec, ps));
    EncodeAllConcat(codec, n.routed, ps);
    assert EncodeAll(codec, n.received) + (Owed(n.inbox, n.queue) + EncodeAll(codec, ps))
        == EncodeAll(codec, n.received) + Owed(n.inbox, n.queue) + EncodeAll(codec, ps);
    assert Precedes(n.inbox, n.queue + more) by {
      if n.queue != [] { assert (n.queue + more)[0] == n.queue[0]; }
    }
  }

  function Delivered(n: Node, cut: Cut, r: Received, ps: seq<DeniablePayload>): Node {
    n.(queue := cut.rest, inbox := r.stored, received := n.received + ps)
  }

  /** Any cut of the queue that reaches the client keeps the second hop. */
  lemma CutKeepsHop2(codec: Codec<DeniablePayload>, n: Node, cut: Cut, r: Received) returns (ps: seq<DeniablePayload>)
    requires codec.RoundTrips() && Hop2(codec, n) && CutsOff(n.queue, cut, true)
    requires r == Handle(n.inbox, NonDummy(cut.chunks))
    ensures DecodeAll(codec, r.payloads) == Some(ps) && Deliverable(ps)
    ensures Hop2(codec, Delivered(n, cut, r, ps))
  {
    HandleConserves(n.queue, n.inbox, cut.chunks, cut.rest);
    ps := EncodedPart(codec, n.received, r.payloads, Owed(r.stored, cut.rest), n.routed);
    PartDeliverable(n.received, ps, n.routed);
  }

  lemma DeliverKeepsHop2(codec: Codec<DeniablePayload>, n: Node, total: Budget) returns (n': Node)
    requires codec.RoundTrips() && Hop2(codec, n)
    ensures DeliverStep(codec, n, total) == Some(n') && Hop2(codec, n')
    ensures n' == n.(queue := n'.queue, inbox := n'.inbox, received := n'.received)
  {
    var cut := NextCut(n.queue, total);
    var r := Handle(n.inbox, NonDummy(cut.chunks));
    var ps := CutKeepsHop2(codec, n, cut, r);
    n' := Delivered(n, cut, r, ps);
    DeliverStepIs(codec, n, total, cut, r, ps);
  }

  lemma NextCut(q: seq<Pending>, total: Budget) returns (cut: Cut)
    requires Sendable(q)
    ensures cut == ServerFill(q, total - EMPTY_VEC_SIZE) && CutsOff(q, cut, true)
  {
    cut := ServerFill(q, total - EMPTY_VEC_SIZE);
    ServerFillCuts(q, total - EMPTY_VEC_SIZE);
  }

  lemma DeliverStepIs(codec: Codec<DeniablePayload>, n: Node, total: Budget, cut: Cut, r: Received,
                      ps: seq<DeniablePayload>)
    requires cut == ServerFill(n.queue, total - EMPTY_VEC_SIZE) && r == Handle(n.inbox, NonDummy(cut.chunks))
    requires DecodeAll(codec, r.payloads) == Some(ps) && Deliverable(ps)
    ensures DeliverStep(codec, n, total) == Some(Delivered(n, cut, r, ps))
  {
    assert forall i :: 0 <= i < |ps| ==> Arrives(ps[i]);
  }

  lemma HandleConserves(q: seq<Pending>, inbox: seq<DenimChunk>, cs: seq<DenimChunk>, q': seq<Pending>)
    requires Sendable(q) && Precedes(inbox, q) && Cuts(q, NonDummy(cs), q', true)
    ensures var r := Handle(inbox, NonDummy(cs));
            Precedes(r.stored, q') && r.payloads + Owed(r.stored, q') == Owed(inbox, q)
  {
    HandleIsAssemble(inbox, cs);
    CutsConserve(q, NonDummy(cs), q', true, inbox);
  }

  lemma HandleIsAssemble(inbox: seq<DenimChunk>, cs: seq<DenimChunk>)
    ensures var a := Assemble(NonDummy(cs), inbox); Handle(inbox, NonDummy(cs)) == Received(a.payloads, a.pending)
  {
    HandleIsOnePass(inbox, NonDummy(cs));
    SameAssembly(cs, inbox);
    DummiesDoNotMatter(cs, inbox);
  }

  lemma PartDeliverable(done: seq<DeniablePayload>, ps: seq<DeniablePayload>, all: seq<DeniablePayload>)
    requires done + ps <= all && Deliverable(all)
    ensures Deliverable(ps)
  {
    forall i | 0 <= i < |ps| ensures ps[i].Envelope? || ps[i].KeyResponse? {
      assert ps[i] == (done + ps)[|done| + i] == all[|done| + i];
    }
  }

  // ---- Steps keep the whole invariant ----

  lemma SameAccounts(s: State, s': State)
    requires s.Keys == s'.Keys
    ensures Accounts(s) == Accounts(s')
  {
    forall x | x in Accounts(s) ensures x in Accounts(s') { var a :| a in s && a.account == x; assert a in s'; }
    forall x | x in Accounts(s') ensures x in Accounts(s) { var a :| a in s' && a.account == x; assert a in s; }
  }

  /** Changing one node without touching what the server passed on. */
  lemma ReplaceKeeps(codec: Codec<DeniablePayload>, s: State, a: Address, n: Node)
    requires Inv(codec, s) && a in s
    requires NodeInv(codec, n) && n.passed == s[a].passed && n.routed == s[a].routed
    ensures Inv(codec, s[a := n])
  {
    ReplaceAttributes(s, a, n);
  }

  lemma ReplaceAttributes(s: State, a: Address, n: Node)
    requires AllAttributed(s) && a in s && n.passed == s[a].passed && n.routed == s[a].routed
    ensures AllAttributed(s[a := n])
  {
    var s' := s[a := n];
    forall b, d | b in s' && d in s' ensures Attributed(s', b, d) {
      assert Attributed(s, b, d);
      SameTags(s, s', b);
    }
  }

  lemma SameTags(s: State, s': State, a: Address)
    requires s.Keys == s'.Keys
    ensures UniqueTag(s, a) <==> UniqueTag(s', a)
  {
    if UniqueTag(s, a) {
      forall b | b in s' && SameTag(a, b) ensures a == b { assert b in s; }
    }
    if UniqueTag(s', a) {
      forall b | b in s && SameTag(a, b) ensures a == b { assert b in s'; }
    }
  }

  lemma SubmitKeeps(codec: Codec<DeniablePayload>, s: State, a: Address, p: DeniablePayload)
    requires codec.RoundTrips() && Inv(codec, s) && a in s
    ensures Inv(codec, s[a := SubmitStep(codec, s[a], p)])
  {
    assert NodeInv(codec, s[a]);
    SubmitKeepsHop1(codec, s[a], p);
    ReplaceKeeps(codec, s, a, SubmitStep(codec, s[a], p));
  }

  lemma DeliverKeeps(codec: Codec<DeniablePayload>, s: State, d: Address, total: Budget)
    requires codec.RoundTrips() && Inv(codec, s) && d in s
    ensures DeliverStep(codec, s[d], total).Some? && Inv(codec, s[d := DeliverStep(codec, s[d], total).value])
    ensures var n := DeliverStep(codec, s[d], total).value;
      n == s[d].(queue := n.queue, inbox := n.inbox, received := n.received)
  {
    assert NodeInv(codec, s[d]);
    var n := DeliverKeepsHop2(codec, s[d], total);
    SameHop1(codec, s[d], n);
    ReplaceKeeps(codec, s, d, n);
  }

  lemma SameHop1(codec: Codec<DeniablePayload>, n: Node, n': Node)
    requires Hop1(codec, n) && n'.outbox == n.outbox && n'.buffer == n.buffer
    requires n'.emitted == n.emitted && n'.submitted == n.submitted
    ensures Hop1(codec, n')
  {
  }

  /** A request, whether or not it fails after its flush. It fails exactly if one of the
      payloads it flushes cannot be routed. */
  lemma RequestKeeps(codec: Codec<DeniablePayload>, s: State, a: Address, totals: seq<Budget>, env: Surroundings)
    returns (ps: seq<DeniablePayload>)
    requires codec.RoundTrips() && Inv(codec, s) && a in s && Covered(s, Request(a, totals, env))
    ensures Flushed(codec, s[a], totals) == Some(ps) && s[a].emitted + ps <= s[a].submitted
    ensures Inv(codec, Dropped(codec, s, a, totals))
    ensures RequestStep(codec, s, a, totals, env).Some? <==> RouteAll(a, ps, env, Accounts(s)).Some?
    ensures RequestStep(codec, s, a, totals, env).Some? ==>
      var s' := RequestStep(codec, s, a, totals, env).value;
      && Inv(codec, s') && s'.Keys == s.Keys
      && s' == Spread(codec, s[a := Passed(Sent(s[a], totals, ps), ps)], RouteAll(a, ps, env, Accounts(s)).value)
  {
    assert NodeInv(codec, s[a]);
    ps := RequestKeepsHop1(codec, s[a], totals);
    var n := Sent(s[a], totals, ps);
    SameHop2(codec, s[a], n);
    ReplaceKeeps(codec, s, a, n);
    RequestStepIs(codec, s, a, totals, env, ps);
    if RouteAll(a, ps, env, Accounts(s)).Some? {
      SameHop1(codec, n, Passed(n, ps));
      SameHop2(codec, n, Passed(n, ps));
      SpreadKeeps(codec, s, a, Passed(n, ps), ps, env);
    }
  }

  lemma SameHop2(codec: Codec<DeniablePayload>, n: Node, n': Node)
    requires Hop2(codec, n) && n'.inbox == n.inbox && n'.queue == n.queue
    requires n'.routed == n.routed && n'.received == n.received
    ensures Hop2(codec, n')
  {
  }

  lemma RequestStepIs(codec: Codec<DeniablePayload>, s: State, a: Address, totals: seq<Budget>, env: Surroundings,
                      ps: seq<DeniablePayload>)
    requires a in s && Flushed(codec, s[a], totals) == Some(ps)
    ensures var routes := RouteAll(a, ps, env, Accounts(s));
      RequestStep(codec, s, a, totals, env) == if routes.None? then None
        else Some(Spread(codec, s[a := Passed(Sent(s[a], totals, ps), ps)], routes.value))
  {
  }

  lemma SpreadKeeps(codec: Codec<DeniablePayload>, s: State, a: Address, n: Node, ps: seq<DeniablePayload>,
                    env: Surroundings)
    requires codec.RoundTrips() && a in s && RouteAll(a, ps, env, Accounts(s)).Some?
    requires Inv(codec, s) && NodeInv(codec, n)
    requires n.routed == s[a].routed && n.passed == s[a].passed + ps
    ensures var s' := Spread(codec, s[a := n], RouteAll(a, ps, env, Accounts(s)).value);
            Inv(codec, s') && s'.Keys == s.Keys
  {
    SpreadNodes(codec, s, a, n, ps, env, Accounts(s));
    SpreadAttributes(codec, s, a, n, ps, env);
  }

  lemma SpreadAttributes(codec: Codec<DeniablePayload>, s: State, a: Address, n: Node, ps: seq<DeniablePayload>,
                         env: Surroundings)
    requires a in s && RouteAll(a, ps, env, Accounts(s)).Some? && AllAttributed(s)
    requires n.routed == s[a].routed && n.passed == s[a].passed + ps
    ensures AllAttributed(Spread(codec, s[a := n], RouteAll(a, ps, env, Accounts(s)).value))
  {
    var s' := Spread(codec, s[a := n], RouteAll(a, ps, env, Accounts(s)).value);
    forall b, d | b in s' && d in s' ensures Attributed(s', b, d) {
      assert Attributed(s, b, d);
      RouteKeepsAttribution(s, s', a, ps, env, b, d);
    }
  }

  lemma SpreadNodes(codec: Codec<DeniablePayload>, s: State, a: Address, n: Node, ps: seq<DeniablePayload>,
                    env: Surroundings, accounts: set<string>)
    requires codec.RoundTrips() && a in s && RouteAll(a, ps, env, accounts).Some?
    requires AllNodes(codec, s) && NodeInv(codec, n)
    ensures AllNodes(codec, Spread(codec, s[a := n], RouteAll(a, ps, env, accounts).value))
  {
    var mid, routes := s[a := n], RouteAll(a, ps, env, accounts).value;
    var s' := Spread(codec, mid, routes);
    forall d | d in s' ensures NodeInv(codec, s'[d]) {
      RoutesAreDeliverable(a, ps, env, accounts, d.account);
      assert NodeInv(codec, mid[d]);
      EnqueueNode(codec, mid[d], ForAccount(routes, d.account));
    }
  }

  lemma EnqueueNode(codec: Codec<DeniablePayload>, n: Node, ps: seq<DeniablePayload>)
    requires codec.RoundTrips() && NodeInv(codec, n) && Deliverable(ps)
    ensures NodeInv(codec, Enqueue(codec, n, ps))
  {
    EnqueueKeepsHop2(codec, n, ps);
    SameHop1(codec, n, Enqueue(codec, n, ps));
  }

  lemma RouteKeepsAttribution(s: State, s': State, a: Address, ps: seq<DeniablePayload>, env: Surroundings,
                              b: Address, d: Address)
    requires a in s && b in s && d in s && s'.Keys == s.Keys && Attributed(s, b, d)
    requires RouteAll(a, ps, env, Accounts(s)).Some?
    requires s'[d].routed == s[d].routed + ForAccount(RouteAll(a, ps, env, Accounts(s)).value, d.account)
    requires s'[b].passed == if b == a then s[b].passed + ps else s[b].passed
    ensures Attributed(s', b, d)
  {
    if UniqueTag(s', b) {
      SameTags(s, s', b);
      var more := ForAccount(RouteAll(a, ps, env, Accounts(s)).value, d.account);
      RouteAllKeeps(a, ps, env, Accounts(s), b, d.account);
      SentByConcat(s[d].routed, more, b);
      AddressedConcat(s[b].passed, ps, d.account);
      assert SameTag(a, b) <==> a == b by { if SameTag(a, b) { assert SameTag(b, a); } }
    }
  }

  /** Every attempt keeps the invariant, whatever is submitted and whether or not the keys
      asked for are there. */
  lemma AttemptKeeps(codec: Codec<DeniablePayload>, s: State, ev: Event)
    requires codec.RoundTrips() && Inv(codec, s) && Known(s, ev) && Covered(s, ev)
    ensures var s' := Attempt(codec, s, ev); Inv(codec, s') && s'.Keys == s.Keys && Accounts(s') == Accounts(s)
    ensures !ev.Request? ==> Step(codec, s, ev).Some?
  {
    match ev
    case Submit(a, p) => SubmitKeeps(codec, s, a, p);
    case Request(a, totals, env) => var ps := RequestKeeps(codec, s, a, totals, env);
    case Deliver(d, total) => DeliverKeeps(codec, s, d, total);
    SameAccounts(s, Attempt(codec, s, ev));
  }

  /** A step fails exactly when it is a request that flushes a payload which cannot be
      routed. */
  lemma StepSucceeds(codec: Codec<DeniablePayload>, s: State, ev: Event)
    requires codec.RoundTrips() && Inv(codec, s) && Known(s, ev) && Covered(s, ev)
    ensures ev.Request? ==> Flushed(codec, s[ev.sender], ev.totals).Some?
    ensures Step(codec, s, ev).Some? <==> (ev.Request? ==>
      var ps := Flushed(codec, s[ev.sender], ev.totals).value;
      AllRoutable(ps, Accounts(s)) && AllAnswered(ev.env, ps))
  {
    if ev.Request? {
      var ps := RequestKeeps(codec, s, ev.sender, ev.totals, ev.env);
      RouteAllSucceeds(ev.sender, ps, ev.env, Accounts(s));
    } else {
      AttemptKeeps(codec, s, ev);
    }
  }

  lemma PartRoutable(done: seq<DeniablePayload>, ps: seq<DeniablePayload>, all: seq<DeniablePayload>,
                     accounts: set<string>)
    requires done + ps <= all && AllRoutable(all, accounts)
    ensures AllRoutable(ps, accounts)
  {
    forall i | 0 <= i < |ps| ensures Routable(ps[i], accounts) {
      assert ps[i] == (done + ps)[|done| + i] == all[|done| + i];
    }
  }

  /** What an honest request flushes can be routed, but for the keys. */
  lemma RequestRoutable(codec: Codec<DeniablePayload>, s: State, ev: Event) returns (ps: seq<DeniablePayload>)
    requires codec.RoundTrips() && Inv(codec, s) && AllWhole(s, Accounts(s))
    requires ev.Request? && Known(s, ev) && Covered(s, ev)
    ensures Flushed(codec, s[ev.sender], ev.totals) == Some(ps) && AllRoutable(ps, Accounts(s))
  {
    ps := RequestKeeps(codec, s, ev.sender, ev.totals, ev.env);
    assert Whole(s[ev.sender], Accounts(s));
    PartRoutable(s[ev.sender].emitted, ps, s[ev.sender].submitted, Accounts(s));
  }

  lemma StepWhole(codec: Codec<DeniablePayload>, s: State, ev: Event)
    requires codec.RoundTrips() && Inv(codec, s) && AllWhole(s, Accounts(s)) && Honest(s, ev) && Covered(s, ev)
    requires Step(codec, s, ev).Some?
    ensures AllWhole(Step(codec, s, ev).value, Accounts(s))
  {
    var s' := Step(codec, s, ev).value;
    if ev.Deliver? { DeliverKeeps(codec, s, ev.receiver, ev.total); }
    forall b | b in s' ensures Whole(s'[b], Accounts(s)) {
      assert b in s && Whole(s[b], Accounts(s));
    }
  }

  /** An honest step whose flush, if any, meets no unanswerable key request succeeds. */
  lemma StepKeeps(codec: Codec<DeniablePayload>, s: State, ev: Event)
    requires codec.RoundTrips() && Inv(codec, s) && AllWhole(s, Accounts(s)) && Honest(s, ev) && Covered(s, ev)
    ensures Step(codec, s, ev).Some? <==> Answered(codec, s, ev)
    ensures Answered(codec, s, ev) ==> var s' := Step(codec, s, ev).value;
      Inv(codec, s') && AllWhole(s', Accounts(s')) && s'.Keys == s.Keys
  {
    StepSucceeds(codec, s, ev);
    AttemptKeeps(codec, s, ev);
    if ev.Request? { var ps := RequestRoutable(codec, s, ev); }
    if Step(codec, s, ev).Some? { StepWhole(codec, s, ev); }
  }

  // ---- Whole runs ----

  /** No step of a good run fails, and every state it reaches keeps the invariant. */
  lemma {:induction false} RunKeeps(codec: Codec<DeniablePayload>, s: State, events: seq<Event>)
    requires codec.RoundTrips() && Inv(codec, s) && AllWhole(s, Accounts(s)) && GoodRun(codec, s, events)
    ensures var s' := Run(codec, s, events);
      s'.Some? && Inv(codec, s'.value) && AllWhole(s'.value, Accounts(s'.value)) && s'.value.Keys == s.Keys
    decreases |events|
  {
    if events != [] {
      StepKeeps(codec, s, events[0]);
      RunKeeps(codec, Step(codec, s, events[0]).value, events[1..]);
    }
  }

  lemma InitialInv(codec: Codec<DeniablePayload>, s: State)
    requires Initial(s)
    ensures Inv(codec, s) && AllWhole(s, Accounts(s))
  {
    forall a | a in s ensures NodeInv(codec, s[a]) {
      assert Assemble([], []) == Assembled([], []);
      assert EncodeAll(codec, []) == [];
    }
  }

  /** What device d has received under sender a's name. */
  ghost function Inbound(s: State, d: Address, a: Address): seq<Message>
    requires d in s
  {
    SentBy(s[d].received, a)
  }

  lemma SentByPrefix(x: seq<DeniablePayload>, y: seq<DeniablePayload>, a: Address)
    requires x <= y
    ensures SentBy(x, a) <= SentBy(y, a)
  {
    SentByConcat(x, y[|x|..], a);
    assert y == x + y[|x|..];
  }

  lemma AddressedPrefix(x: seq<DeniablePayload>, y: seq<DeniablePayload>, account: string)
    requires x <= y
    ensures Addressed(x, account) <= Addressed(y, account)
  {
    AddressedConcat(x, y[|x|..], account);
    assert y == x + y[|x|..];
  }

  lemma EncodedPrefix(codec: Codec<DeniablePayload>, x: seq<DeniablePayload>, rest: seq<seq<Byte>>,
                      y: seq<DeniablePayload>)
    requires codec.RoundTrips() && EncodeAll(codec, x) + rest == EncodeAll(codec, y)
    ensures x <= y && (rest == [] ==> x == y)
  {
    var none := EncodedPart(codec, x, [], rest, y) by {
      assert EncodeAll(codec, x) + [] + rest == EncodeAll(codec, x) + rest;
    }
    assert x + none == x by { assert |EncodeAll(codec, none)| == 0; }
    assert rest == [] ==> |x| == |y|;
  }

  /** The run succeeds, and what d has from a is a prefix of what a submitted for d. */
  ghost predicate InOrder(codec: Codec<DeniablePayload>, s: State, events: seq<Event>, a: Address, d: Address) {
    var s' := Run(codec, s, events);
    s'.Some? && a in s'.value && d in s'.value
    && Inbound(s'.value, d, a) <= Addressed(s'.value[a].submitted, d.account)
  }

  /** Two-hop FIFO. Over every good run, whatever the interleaving of submits, requests of
      any sizes and deliveries by any number of devices: the messages device d has
      received from a are a prefix, in order, of those a submitted for d's account. None
      is lost, repeated, overtaken or credited to somebody else. Runs with requests that
      fail are the subject of module Losses. */
  lemma TwoHopFifo(codec: Codec<DeniablePayload>, s: State, events: seq<Event>, a: Address, d: Address)
    requires codec.RoundTrips() && Initial(s) && GoodRun(codec, s, events)
    requires a in s && d in s && UniqueTag(s, a)
    ensures InOrder(codec, s, events, a, d)
  {
    InitialInv(codec, s);
    RunKeeps(codec, s, events);
    var s' := Run(codec, s, events).value;
    SameTags(s, s', a);
    InvGivesFifo(codec, s', a, d);
    assert Whole(s'[a], Accounts(s'));
    EmittedIsPrefix(codec, s', a);
    AddressedPrefix(s'[a].emitted, s'[a].submitted, d.account);
  }

  /** What has arrived is a prefix of what the server passed on. */
  lemma InvGivesFifo(codec: Codec<DeniablePayload>, s: State, a: Address, d: Address)
    requires codec.RoundTrips() && Inv(codec, s) && a in s && d in s && UniqueTag(s, a)
    ensures Inbound(s, d, a) <= Addressed(s[a].passed, d.account)
    ensures s[d].queue == [] ==> Inbound(s, d, a) == Addressed(s[a].passed, d.account)
  {
    var m := s[d];
    assert NodeInv(codec, m);
    EncodedPrefix(codec, m.received, Owed(m.inbox, m.queue), m.routed);
    SentByPrefix(m.received, m.routed, a);
    assert Attributed(s, a, d);
  }

  lemma EmittedIsPrefix(codec: Codec<DeniablePayload>, s: State, a: Address)
    requires codec.RoundTrips() && Inv(codec, s) && a in s
    ensures s[a].emitted <= s[a].submitted
    ensures s[a].outbox == [] && s[a].buffer == [] ==> s[a].emitted == s[a].submitted
  {
    var n := s[a];
    var pending := Assemble(n.buffer, []);
    assert NodeInv(codec, n);
    EncodedPrefix(codec, n.emitted, pending.payloads + Owed(pending.pending, n.outbox), n.submitted);
  }

  /** Nothing is stuck: once the four buffers between a and d are empty, d has received
      from a exactly what a submitted for d's account. */
  lemma DrainedMeansAll(codec: Codec<DeniablePayload>, s: State, events: seq<Event>, a: Address, d: Address)
    requires codec.RoundTrips() && Initial(s) && GoodRun(codec, s, events)
    requires a in s && d in s && UniqueTag(s, a)
    ensures var s' := Run(codec, s, events);
      s'.Some? && a in s'.value && d in s'.value
      && (s'.value[a].outbox == [] && s'.value[a].buffer == [] && s'.value[d].queue == [] ==>
            Inbound(s'.value, d, a) == Addressed(s'.value[a].submitted, d.account))
  {
    InitialInv(codec, s);
    RunKeeps(codec, s, events);
    var s' := Run(codec, s, events).value;
    SameTags(s, s', a);
    InvGivesAll(codec, s', a, d);
  }

  lemma InvGivesAll(codec: Codec<DeniablePayload>, s: State, a: Address, d: Address)
    requires codec.RoundTrips() && Inv(codec, s) && AllWhole(s, Accounts(s))
    requires a in s && d in s && UniqueTag(s, a)
    ensures s[a].outbox == [] && s[a].buffer == [] && s[d].queue == [] ==>
              Inbound(s, d, a) == Addressed(s[a].submitted, d.account)
  {
    InvGivesFifo(codec, s, a, d);
    EmittedIsPrefix(codec, s, a);
    assert Whole(s[a], Accounts(s));
  }
}
