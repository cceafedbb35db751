/** Client and server together: each event of the state machine is what the methods of both
    sides do to one client's tables and the store. */
module Transport {
  import opened Bincode
  import opened Chunks
  import opened Cutting
  import opened Streams
  import opened Relay
  import opened Entries
  import opened QueueKeys
  import opened RedisQueues
  import opened DeniablePayloads
  import opened TwoHop
  import opened Losses
  import opened KeyAnswers
  import opened DeviceStore
  import opened DenimManager
  import opened Client
  import opened Server

  /** The rows of a client's two tables. */
  datatype Table = Table(payloads: seq<PayloadRow>, chunks: seq<ChunkRow>)

  ghost function TableOf(device: Device): Table
    reads device
  {
    Table(device.payloads, device.chunks)
  }

  /** A client's tables as the state machine sees them. */
  ghost predicate Shows(t: Table, n: Node) {
    && PayloadIdsRise(t.payloads) && ChunkIdsRise(t.chunks)
    && PendingsOf(t.payloads) == n.outbox && ChunksOf(t.chunks) == n.inbox
  }

  ghost predicate Holds(device: Device, n: Node)
    reads device
  {
    Shows(TableOf(device), n)
  }

  method Submit(device: Device, codec: Codec<DeniablePayload>, payload: DeniablePayload, ghost a: Address,
                ghost s: State)
    requires a in s && Holds(device, s[a])
    modifies device`payloads
    ensures Holds(device, Step(codec, s, Event.Submit(a, payload)).value[a])
  {
    SendDeniableMessage(device, codec, [payload]);
    assert [payload][1..] == [];
    assert Fresh(EncodeAll(codec, [payload])) == [Pending(codec.enc(payload), 0)];
  }

  method ChunkLists(areas: seq<Area>) returns (messages: seq<seq<DenimChunk>>)
    ensures Flatten(messages) == AllChunks(areas)
  {
    messages := [];
    for n := 0 to |areas|
      invariant Flatten(messages) + AllChunks(areas[n..]) == AllChunks(areas)
    {
      assert areas[n..][0] == areas[n] && areas[n..][1..] == areas[n + 1..];
      FlattenPush(messages, areas[n].chunks);
      messages := messages + [areas[n].chunks];
    }
    assert areas[|areas|..] == [];
  }

  lemma {:induction false} FlattenPush(batches: seq<seq<DenimChunk>>, b: seq<DenimChunk>)
    ensures Flatten(batches + [b]) == Flatten(batches) + b
  {
    if batches == [] {
      assert [b][1..] == [] && batches + [b] == [b];
    } else {
      assert (batches + [b])[1..] == batches[1..] + [b];
      FlattenPush(batches[1..], b);
    }
  }

  /** The store mirrors the machine, and nobody locks the queues of the transport. */
  ghost predicate Serves(redis: Redis, uuids: Uuids, dir: Server.Directory, s: State)
    reads redis, uuids
  {
    && redis.Valid() && Issued(redis.contents, uuids.next) && MirrorsAll(redis.contents, s)
    && Fixed(dir, redis.locks, s)
  }

  ghost predicate Fixed(dir: Server.Directory, locks: set<QueueId>, s: State) {
    ValidDirectory(dir) && SameDevices(dir, s) && Unlocked(locks, s)
  }

  ghost predicate Unlocked(locks: set<QueueId>, s: State) {
    forall a {:trigger ChunkBuffer(a)} {:trigger PayloadBuffer(a)} :: a in s ==>
      ChunkBuffer(a) !in locks && PayloadBuffer(a) !in locks
  }

  /** Nothing of this changes while the devices are the same. */
  lemma StaysFixed(dir: Server.Directory, locks: set<QueueId>, s: State, s': State)
    requires Fixed(dir, locks, s) && s'.Keys == s.Keys
    ensures Fixed(dir, locks, s')
  {
    SameAccounts(s, s');
  }

  /** What a request needs besides its machine step: labels and lengths that can be encoded,
      and a destination whose first device is the one key requests ask about. */
  ghost predicate Carriable(s: State, ev: Event, dir: Server.Directory, destination: string) {
    ev.Request? && ev.sender in s ==>
      && (forall c :: c in ClientRun(s[ev.sender].outbox, ev.totals).chunks ==> Encodable(c))
      && destination in dir && dir[destination] != [] && ev.env.device == dir[destination][0]
  }

  /** The client cuts chunks for every message of a request, the server handles them. The
      request succeeds exactly when the machine's step does. */
  method Request(redis: Redis, uuids: Uuids, device: Device, codec: Codec<DeniablePayload>, dir: Server.Directory,
                 sender: Address, destination: string, totals: seq<Budget>, env: Surroundings, now: nat, ghost s: State)
    returns (ok: bool)
    requires Serves(redis, uuids, dir, s) && sender in s && Holds(device, s[sender])
    requires Carriable(s, Event.Request(sender, totals, env), dir, destination)
    requires codec.RoundTrips() && Inv(codec, s) && Covered(s, Event.Request(sender, totals, env))
    modifies redis, uuids, device`payloads
    ensures var ev := Event.Request(sender, totals, env); var s' := Attempt(codec, s, ev);
      && (ok <==> Step(codec, s, ev).Some?)
      && sender in s' && Serves(redis, uuids, dir, s') && Holds(device, s'[sender])
  {
    var areas := SendMessage(device, totals);
    var messages := ChunkLists(areas);
    assert Asking(env, dir[destination]) == env;
    ok := HandlePutMessages(redis, uuids, codec, dir, sender, destination, messages, env, now, s, totals);
    RequestTables(codec, s, sender, totals, env);
    StaysFixed(dir, redis.locks, s, Attempt(codec, s, Event.Request(sender, totals, env)));
  }

  /** What a request leaves of the sender's tables, whatever comes of it. */
  lemma RequestTables(codec: Codec<DeniablePayload>, s: State, a: Address, totals: seq<Budget>, env: Surroundings)
    requires codec.RoundTrips() && Inv(codec, s) && a in s && Covered(s, Event.Request(a, totals, env))
    ensures var s' := Attempt(codec, s, Event.Request(a, totals, env));
      && s'.Keys == s.Keys && s'[a].outbox == ClientRun(s[a].outbox, totals).rest
      && forall b :: b in s ==>
           && s'[b].inbox == s[b].inbox && s'[b].received == s[b].received
           && (b != a ==> s'[b].outbox == s[b].outbox)
  {
    var ps := RequestKeeps(codec, s, a, totals, env);
    AttemptIs(codec, s, a, totals, env);
  }

  /** The server prepares a message for a device, the client receives it. */
  method Deliver(redis: Redis, uuids: Uuids, device: Device, codec: Codec<DeniablePayload>, dir: Server.Directory,
                 d: Address, total: Budget, ghost s: State)
    returns (payloads: Option<seq<DeniablePayload>>)
    requires Serves(redis, uuids, dir, s) && d in s && Holds(device, s[d])
    requires codec.RoundTrips() && Inv(codec, s)
    modifies redis, device`chunks
    ensures payloads.Some? && Step(codec, s, Event.Deliver(d, total)).Some?
    ensures var s' := Step(codec, s, Event.Deliver(d, total)).value;
      d in s' && Serves(redis, uuids, dir, s') && Holds(device, s'[d])
      && s'[d].received == s[d].received + payloads.value
  {
    DeliverKeeps(codec, s, d, total);
    assert PayloadBuffer(d) !in redis.locks;
    ghost var contents := redis.contents;
    var chunks, ballast := DeliverTo(redis, d, total, s);
    payloads := ReceiveMessage(device, codec, chunks);
    ghost var s' := Step(codec, s, Event.Deliver(d, total)).value;
    DeliverMirrors(redis.contents, codec, s, d, total);
    NoneNewlyIssued(contents, redis.contents, uuids.next);
    StaysFixed(dir, redis.locks, s, s');
  }

  /** The store does not see what a client has received. */
  lemma DeliverMirrors(contents: map<QueueId, seq<Item>>, codec: Codec<DeniablePayload>, s: State, d: Address,
                       total: Budget)
    requires d in s && Step(codec, s, Event.Deliver(d, total)).Some?
    requires MirrorsAll(contents, s[d := s[d].(queue := ServerFill(s[d].queue, total - EMPTY_VEC_SIZE).rest)])
    ensures MirrorsAll(contents, Step(codec, s, Event.Deliver(d, total)).value)
  {
    var s1, s' := s[d := s[d].(queue := ServerFill(s[d].queue, total - EMPTY_VEC_SIZE).rest)],
      Step(codec, s, Event.Deliver(d, total)).value;
    forall a | a in s' ensures Mirrors(contents, a, s'[a]) {
      assert Mirrors(contents, a, s1[a]);
    }
  }

  // ---- Whole runs ----

  /** Every device of the machine has its own client, and the store mirrors the machine. */
  ghost predicate World(redis: Redis, uuids: Uuids, clients: map<Address, Device>, dir: Server.Directory, s: State)
    reads redis, uuids, set a | a in clients :: clients[a]
  {
    Serves(redis, uuids, dir, s) && OwnClients(clients, s) && AllHold(clients, s)
  }

  ghost predicate OwnClients(clients: map<Address, Device>, s: State) {
    && clients.Keys == s.Keys
    && forall a, b :: a in s && b in s && a != b ==> clients[a] != clients[b]
  }

  ghost predicate HoldsAt(clients: map<Address, Device>, s: State, a: Address)
    requires a in clients && a in s
    reads clients[a]
  {
    Holds(clients[a], s[a])
  }

  ghost predicate AllHold(clients: map<Address, Device>, s: State)
    requires clients.Keys == s.Keys
    reads set a | a in clients :: clients[a]
  {
    forall a {:trigger HoldsAt(clients, s, a)} :: a in s ==> HoldsAt(clients, s, a)
  }

  ghost predicate CarriableRun(codec: Codec<DeniablePayload>, s: State, events: seq<Event>, dir: Server.Directory,
                              destinations: seq<string>)
    requires |destinations| == |events|
    decreases |events|
  {
    events != [] ==>
      && Carriable(s, events[0], dir, destinations[0])
      && CarriableRun(codec, Attempt(codec, s, events[0]), events[1..], dir, destinations[1..])
  }

  /** The store does not see what a client has yet to send. */
  lemma SubmitMirrors(contents: map<QueueId, seq<Item>>, codec: Codec<DeniablePayload>, s: State, a: Address,
                      p: DeniablePayload)
    requires a in s && MirrorsAll(contents, s)
    ensures MirrorsAll(contents, s[a := SubmitStep(codec, s[a], p)])
  {
    var s' := s[a := SubmitStep(codec, s[a], p)];
    forall b | b in s' ensures Mirrors(contents, b, s'[b]) { assert Mirrors(contents, b, s[b]); }
  }

  method PerformSubmit(redis: Redis, uuids: Uuids, clients: map<Address, Device>, codec: Codec<DeniablePayload>,
                       dir: Server.Directory, a: Address, p: DeniablePayload, ghost s: State)
    requires World(redis, uuids, clients, dir, s) && a in s
    modifies clients[a]
    ensures World(redis, uuids, clients, dir, s[a := SubmitStep(codec, s[a], p)])
  {
    ghost var s' := s[a := SubmitStep(codec, s[a], p)];
    assert HoldsAt(clients, s, a);
    Submit(clients[a], codec, p, a, s);
    SubmitMirrors(redis.contents, codec, s, a, p);
    StaysFixed(dir, redis.locks, s, s');
    forall b | b in s' ensures HoldsAt(clients, s', b) {
      assert old(HoldsAt(clients, s, b)) && (b != a ==> clients[b] != clients[a]);
    }
  }

  method PerformRequest(redis: Redis, uuids: Uuids, clients: map<Address, Device>, codec: Codec<DeniablePayload>,
                        dir: Server.Directory, a: Address, totals: seq<Budget>, env: Surroundings,
                        destination: string, now: nat, ghost s: State, ghost s': State)
    returns (ok: bool)
    requires World(redis, uuids, clients, dir, s) && codec.RoundTrips() && Inv(codec, s) && a in s
    requires Covered(s, Event.Request(a, totals, env)) && Carriable(s, Event.Request(a, totals, env), dir, destination)
    requires s' == Attempt(codec, s, Event.Request(a, totals, env)) && OnlySends(s, s', a)
    modifies redis, uuids, clients[a]
    ensures World(redis, uuids, clients, dir, s')
    ensures ok <==> Step(codec, s, Event.Request(a, totals, env)).Some?
  {
    assert HoldsAt(clients, s, a);
    ok := Request(redis, uuids, clients[a], codec, dir, a, destination, totals, env, now, s);
    forall b | b in s' ensures HoldsAt(clients, s', b) {
      assert old(HoldsAt(clients, s, b)) && (b != a ==> clients[b] != clients[a]);
    }
  }

  /** The tables of the other devices, and what anybody has received, are as before. */
  ghost predicate OnlySends(s: State, s': State, a: Address) {
    && s'.Keys == s.Keys
    && forall b :: b in s ==>
         && s'[b].received == s[b].received
         && (b != a ==> s'[b].outbox == s[b].outbox && s'[b].inbox == s[b].inbox)
  }

  method PerformDeliver(redis: Redis, uuids: Uuids, clients: map<Address, Device>, codec: Codec<DeniablePayload>,
                        dir: Server.Directory, d: Address, total: Budget, ghost s: State, ghost s': State)
    returns (payloads: seq<DeniablePayload>)
    requires World(redis, uuids, clients, dir, s) && codec.RoundTrips() && Inv(codec, s) && d in s
    requires Step(codec, s, Event.Deliver(d, total)) == Some(s') && OnlyReceives(s, s', d)
    modifies redis, clients[d]
    ensures World(redis, uuids, clients, dir, s') && s'[d].received == s[d].received + payloads
  {
    assert HoldsAt(clients, s, d);
    var received := Deliver(redis, uuids, clients[d], codec, dir, d, total, s);
    payloads := received.value;
    forall b | b in s' ensures HoldsAt(clients, s', b) {
      assert old(HoldsAt(clients, s, b)) && (b != d ==> clients[b] != clients[d]);
    }
  }

  ghost predicate OnlyReceives(s: State, s': State, d: Address) {
    s'.Keys == s.Keys && forall b :: b in s && b != d ==> s'[b] == s[b]
  }

  /** What an event changes of the clients' tables and of what they have received. */
  lemma AttemptChanges(codec: Codec<DeniablePayload>, s: State, ev: Event)
    requires codec.RoundTrips() && Inv(codec, s) && Known(s, ev) && Covered(s, ev)
    ensures var s' := Attempt(codec, s, ev);
      match ev
      case Submit(a, p) =>
        s' == s[a := SubmitStep(codec, s[a], p)] && Step(codec, s, ev).Some? && Receives(s, s', ev, [])
      case Request(a, _, _) => OnlySends(s, s', a) && Receives(s, s', ev, [])
      case Deliver(d, _) => Step(codec, s, ev) == Some(s') && OnlyReceives(s, s', d)
  {
    match ev
    case Submit(a, p) => ReceivesNothing(s, Attempt(codec, s, ev), ev);
    case Request(a, totals, env) =>
      RequestTables(codec, s, a, totals, env);
      ReceivesNothing(s, Attempt(codec, s, ev), ev);
    case Deliver(d, total) => DeliverKeeps(codec, s, d, total);
  }

  lemma ReceivesNothing(s: State, s': State, ev: Event)
    requires s'.Keys == s.Keys && !ev.Deliver? && forall b :: b in s ==> s'[b].received == s[b].received
    ensures Receives(s, s', ev, [])
  {
    forall b | b in s ensures s'[b].received == s[b].received + [] {}
  }

  lemma ReceivesHere(s: State, s': State, ev: Event, payloads: seq<DeniablePayload>)
    requires ev.Deliver? && ev.receiver in s && OnlyReceives(s, s', ev.receiver)
    requires s'[ev.receiver].received == s[ev.receiver].received + payloads
    ensures Receives(s, s', ev, payloads)
  {
    forall b | b in s && b != ev.receiver ensures s'[b].received == s[b].received + [] {}
  }

  /** One event, carried out by client and server. */
  method Perform(redis: Redis, uuids: Uuids, clients: map<Address, Device>, codec: Codec<DeniablePayload>,
                 dir: Server.Directory, ev: Event, destination: string, now: nat, ghost s: State, ghost s': State)
    returns (ok: bool, payloads: seq<DeniablePayload>)
    requires World(redis, uuids, clients, dir, s) && codec.RoundTrips() && Inv(codec, s)
    requires Known(s, ev) && Covered(s, ev) && Carriable(s, ev, dir, destination) && s' == Attempt(codec, s, ev)
    modifies redis, uuids, set a | a in clients :: clients[a]
    ensures World(redis, uuids, clients, dir, s') && (ok <==> Step(codec, s, ev).Some?)
    ensures Receives(s, s', ev, payloads)
  {
    AttemptChanges(codec, s, ev);
    ok, payloads := true, [];
    match ev
    case Submit(a, p) =>
      PerformSubmit(redis, uuids, clients, codec, dir, a, p, s);
    case Request(a, totals, env) =>
      ok := PerformRequest(redis, uuids, clients, codec, dir, a, totals, env, destination, now, s, s');
    case Deliver(d, total) =>
      payloads := PerformDeliver(redis, uuids, clients, codec, dir, d, total, s, s');
      ReceivesHere(s, s', ev, payloads);
  }

  /** Only a delivery's receiver has received anything. */
  ghost predicate Receives(s: State, s': State, ev: Event, payloads: seq<DeniablePayload>) {
    s'.Keys == s.Keys && forall a :: a in s ==>
      s'[a].received == s[a].received + if ev.Deliver? && ev.receiver == a then payloads else []
  }

  function Got(received: map<Address, seq<DeniablePayload>>, d: Address): seq<DeniablePayload> {
    if d in received then received[d] else []
  }

  /** t is where the run from s stands before its n-th event, and ok says that no request has
      failed so far. */
  ghost predicate Standing(codec: Codec<DeniablePayload>, s: State, events: seq<Event>, dir: Server.Directory,
                           destinations: seq<string>, t: State, n: nat, ok: bool)
    requires |destinations| == |events|
  {
    && n <= |events| && Inv(codec, t)
    && CoveredRun(codec, t, events[n..]) && CarriableRun(codec, t, events[n..], dir, destinations[n..])
    && RunOn(codec, t, events[n..]) == RunOn(codec, s, events)
    && (Run(codec, s, events).Some? <==> ok && Run(codec, t, events[n..]).Some?)
  }

  /** The next event of a run. */
  lemma NextState(codec: Codec<DeniablePayload>, s: State, events: seq<Event>, dir: Server.Directory,
                  destinations: seq<string>, t: State, n: nat, ok: bool) returns (t': State)
    requires codec.RoundTrips() && n < |events| == |destinations|
    requires Standing(codec, s, events, dir, destinations, t, n, ok)
    ensures t' == Attempt(codec, t, events[n]) && Inv(codec, t)
    ensures Known(t, events[n]) && Covered(t, events[n]) && Carriable(t, events[n], dir, destinations[n])
    ensures Standing(codec, s, events, dir, destinations, t', n + 1, ok && Step(codec, t, events[n]).Some?)
  {
    assert events[n..][0] == events[n] && events[n..][1..] == events[n + 1..];
    assert destinations[n..][0] == destinations[n] && destinations[n..][1..] == destinations[n + 1..];
    AttemptKeeps(codec, t, events[n]);
    t' := Attempt(codec, t, events[n]);
  }

  lemma FirstAndLast(codec: Codec<DeniablePayload>, s: State, events: seq<Event>, dir: Server.Directory,
                     destinations: seq<string>, t: State, ok: bool)
    requires |destinations| == |events|
    ensures Inv(codec, s) && CoveredRun(codec, s, events) && CarriableRun(codec, s, events, dir, destinations) ==>
      Standing(codec, s, events, dir, destinations, s, 0, true)
    ensures Standing(codec, s, events, dir, destinations, t, |events|, ok) ==>
      t == RunOn(codec, s, events) && (ok <==> Run(codec, s, events).Some?)
  {
    assert events[0..] == events && destinations[0..] == destinations && events[|events|..] == [];
  }

  /** The machine has recorded what was received since s. */
  ghost predicate Recorded(s: State, t: State, received: map<Address, seq<DeniablePayload>>) {
    t.Keys == s.Keys && forall a :: a in s ==> t[a].received == s[a].received + Got(received, a)
  }

  lemma NothingRecorded(s: State)
    ensures Recorded(s, s, map[])
  {
    forall a | a in s ensures s[a].received == s[a].received + Got(map[], a) {}
  }

  lemma RecordedMore(s: State, t: State, t': State, received: map<Address, seq<DeniablePayload>>, ev: Event,
                     payloads: seq<DeniablePayload>)
    requires Recorded(s, t, received) && Receives(t, t', ev, payloads)
    ensures Recorded(s, t', if ev.Deliver? then received[ev.receiver := Got(received, ev.receiver) + payloads]
      else received)
  {
    forall a | a in s && ev.Deliver? && ev.receiver == a
      ensures t'[a].received == s[a].received + (Got(received, a) + payloads)
    {
      assert t[a].received == s[a].received + Got(received, a);
    }
  }

  /** A whole run by the methods of clients and server: they go through the states of the
      machine, failures included, and what the clients' receive methods return is what the
      machine records as received. */
  method Execute(redis: Redis, uuids: Uuids, clients: map<Address, Device>, codec: Codec<DeniablePayload>,
                 dir: Server.Directory, events: seq<Event>, destinations: seq<string>, now: nat, ghost s: State)
    returns (ok: bool, received: map<Address, seq<DeniablePayload>>)
    requires World(redis, uuids, clients, dir, s) && codec.RoundTrips() && Inv(codec, s)
    requires |destinations| == |events| && CoveredRun(codec, s, events)
    requires CarriableRun(codec, s, events, dir, destinations)
    modifies redis, uuids, set a | a in clients :: clients[a]
    ensures World(redis, uuids, clients, dir, RunOn(codec, s, events))
    ensures ok <==> Run(codec, s, events).Some?
    ensures Recorded(s, RunOn(codec, s, events), received)
  {
    ok, received := true, map[];
    ghost var t := s;
    FirstAndLast(codec, s, events, dir, destinations, t, ok);
    NothingRecorded(s);
    for n := 0 to |events|
      invariant World(redis, uuids, clients, dir, t)
      invariant Standing(codec, s, events, dir, destinations, t, n, ok)
      invariant Recorded(s, t, received)
    {
      ghost var t' := NextState(codec, s, events, dir, destinations, t, n, ok);
      var done, payloads := Perform(redis, uuids, clients, codec, dir, events[n], destinations[n], now, t, t');
      RecordedMore(s, t, t', received, events[n], payloads);
      if events[n].Deliver? {
        received := received[events[n].receiver := Got(received, events[n].receiver) + payloads];
      }
      ok := ok && done;
      t := t';
    }
    FirstAndLast(codec, s, events, dir, destinations, t, ok);
  }

  /** What the client of d got from a is part of what a submitted for d's account, in order,
      and a prefix of it if no request failed. */
  ghost predicate InOrderFrom(events: seq<Event>, received: map<Address, seq<DeniablePayload>>, a: Address, d: Address,
                              ok: bool) {
    var got, sent := SentBy(Got(received, d), a), Addressed(SubmittedIn(events, a), d.account);
    Subsequence(got, sent) && (ok ==> got <= sent)
  }

  lemma ReceivedInOrder(codec: Codec<DeniablePayload>, s: State, events: seq<Event>,
                        received: map<Address, seq<DeniablePayload>>, a: Address, d: Address)
    requires codec.RoundTrips() && Initial(s) && CoveredRun(codec, s, events)
    requires a in s && d in s && UniqueTag(s, a) && Recorded(s, RunOn(codec, s, events), received)
    ensures InOrderFrom(events, received, a, d, Run(codec, s, events).Some?)
  {
    assert [] + Got(received, d) == Got(received, d);
    LossyFifo(codec, s, events, a, d);
    if Run(codec, s, events).Some? { SuccessMeansFifo(codec, s, events, a, d); }
  }

  /** The bundles the client of d got are, in order, the first of those that requests of its
      account's devices were answered with. */
  ghost predicate AnswersFrom(codec: Codec<DeniablePayload>, s: State, events: seq<Event>,
                              received: map<Address, seq<DeniablePayload>>, d: Address) {
    Responses(Got(received, d)) <= AnsweredIn(codec, s, events, d.account)
  }

  lemma ReceivedAnswers(codec: Codec<DeniablePayload>, s: State, events: seq<Event>,
                        received: map<Address, seq<DeniablePayload>>, d: Address)
    requires codec.RoundTrips() && Initial(s) && CoveredRun(codec, s, events) && d in s
    requires Recorded(s, RunOn(codec, s, events), received)
    ensures AnswersFrom(codec, s, events, received, d)
  {
    KeyAnswersInOrder(codec, s, events, d);
    assert [] + Got(received, d) == Got(received, d);
  }

  method StartClients(addresses: set<Address>) returns (clients: map<Address, Device>)
    ensures clients.Keys == addresses && forall a :: a in clients ==> fresh(clients[a])
    ensures forall a {:trigger clients[a]} :: a in clients ==>
      clients[a].Valid() && clients[a].Outbox() == [] && clients[a].Inbox() == []
    ensures forall a, b :: a in clients && b in clients && a != b ==> clients[a] != clients[b]
  {
    clients := map[];
    var todo := addresses;
    while todo != {}
      invariant todo <= addresses && clients.Keys == addresses - todo
      invariant forall a :: a in clients ==> fresh(clients[a])
      invariant forall a {:trigger clients[a]} :: a in clients ==>
        clients[a].Valid() && clients[a].Outbox() == [] && clients[a].Inbox() == []
      invariant forall a, b :: a in clients && b in clients && a != b ==> clients[a] != clients[b]
      decreases todo
    {
      var a :| a in todo;
      var device := new Device();
      clients := clients[a := device];
      todo := todo - {a};
    }
  }

  /** Empty clients and an empty store are a world. */
  method Start(dir: Server.Directory, addresses: set<Address>, ghost s: State)
    returns (redis: Redis, uuids: Uuids, clients: map<Address, Device>)
    requires Initial(s) && s.Keys == addresses && ValidDirectory(dir) && SameDevices(dir, s)
    ensures fresh(redis) && fresh(uuids) && forall a :: a in clients ==> fresh(clients[a])
    ensures World(redis, uuids, clients, dir, s)
  {
    clients := StartClients(addresses);
    redis := new Redis();
    uuids := new Uuids();
    EmptyStore(s);
    forall a | a in s ensures HoldsAt(clients, s, a) { assert clients[a].Valid(); }
  }

  lemma EmptyStore(s: State)
    requires Initial(s)
    ensures Issued(map[], 0) && MirrorsAll(map[], s) && Unlocked({}, s)
  {
    forall a | a in s ensures Mirrors(map[], a, s[a]) {}
  }

  /** The whole program on a list of events, from empty clients and an empty store: each
      client gets, of the messages every other device submitted for its account, a part in
      order, and a prefix if no request failed. */
  method Session(codec: Codec<DeniablePayload>, dir: Server.Directory, addresses: set<Address>, events: seq<Event>,
                 destinations: seq<string>, now: nat, ghost s: State)
    returns (ok: bool, received: map<Address, seq<DeniablePayload>>)
    requires Initial(s) && s.Keys == addresses && ValidDirectory(dir) && SameDevices(dir, s) && codec.RoundTrips()
    requires |destinations| == |events| && CoveredRun(codec, s, events)
    requires CarriableRun(codec, s, events, dir, destinations)
    ensures ok <==> Run(codec, s, events).Some?
    ensures forall a, d {:trigger InOrderFrom(events, received, a, d, ok)} ::
      a in addresses && d in addresses && UniqueTag(s, a) ==> InOrderFrom(events, received, a, d, ok)
    ensures forall d {:trigger AnswersFrom(codec, s, events, received, d)} :: d in addresses ==>
      AnswersFrom(codec, s, events, received, d)
  {
    InitialInv(codec, s);
    var redis, uuids, clients := Start(dir, addresses, s);
    ok, received := Execute(redis, uuids, clients, codec, dir, events, destinations, now, s);
    forall a, d | a in s && d in s && UniqueTag(s, a) ensures InOrderFrom(events, received, a, d, ok) {
      ReceivedInOrder(codec, s, events, received, a, d);
    }
    forall d | d in s ensures AnswersFrom(codec, s, events, received, d) {
      ReceivedAnswers(codec, s, events, received, d);
    }
  }
}
