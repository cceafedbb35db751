/** The request handler's deniable part: buffer the chunks, flush on a final one, route the
    payloads, queue them for every device. It refines the request step of the transport's
    state machine. */
module Server {
  import opened Bincode
  import opened Limits
  import opened Chunks
  import opened Cutting
  import opened Streams
  import opened Relay
  import opened Entries
  import opened QueueKeys
  import opened RedisQueues
  import opened DeniablePayloads
  import opened TwoHop
  import opened DenimManager

  type Directory = map<string, seq<nat>>

  ghost predicate DevicesDiffer(devices: seq<nat>) {
    forall i, j :: 0 <= i < j < |devices| ==> devices[i] != devices[j]
  }

  /** Accounts with their devices, none listed twice. */
  ghost predicate ValidDirectory(dir: Directory) {
    forall account {:trigger DevicesDiffer(dir[account])} :: account in dir ==> DevicesDiffer(dir[account])
  }

  predicate Listed(dir: Directory, d: Address) {
    d.account in dir && d.device in dir[d.account]
  }

  // ---- Grouping by account ----

  function ListAt(groups: map<string, seq<DeniablePayload>>, account: string): seq<DeniablePayload> {
    if account in groups then groups[account] else []
  }

  lemma {:induction false} RouteAllPush(sender: Address, ps: seq<DeniablePayload>, p: DeniablePayload,
                                        env: Surroundings, accounts: set<string>)
    ensures RouteAll(sender, ps + [p], env, accounts) ==
      (var front := RouteAll(sender, ps, env, accounts); var last := Route(sender, p, env, accounts);
       if front.None? || last.None? then None else Some(front.value + last.value))
  {
    if ps == [] {
      assert ps + [p] == [p] && [p][1..] == [];
      var last := Route(sender, p, env, accounts);
      if last.Some? { assert last.value + [] == last.value && [] + last.value == last.value; }
    } else {
      assert (ps + [p])[1..] == ps[1..] + [p];
      RouteAllPush(sender, ps[1..], p, env, accounts);
      var a, b, c := Route(sender, ps[0], env, accounts), RouteAll(sender, ps[1..], env, accounts),
                     Route(sender, p, env, accounts);
      if a.Some? && b.Some? && c.Some? {
        assert a.value + (b.value + c.value) == a.value + b.value + c.value;
      }
    }
  }

  lemma RouteAllPrefixFails(sender: Address, ps: seq<DeniablePayload>, n: nat, env: Surroundings, accounts: set<string>)
    requires n < |ps| && Route(sender, ps[n], env, accounts).None?
    ensures RouteAll(sender, ps, env, accounts).None?
  {
    RouteAllSucceeds(sender, ps, env, accounts);
    assert !(Routable(ps[n], accounts) && Answers(env, ps[n]));
  }

  lemma GroupOne(m: map<string, seq<DeniablePayload>>, routes: seq<Routed>, account: string)
    requires |routes| <= 1
    ensures var m' := if routes == [] then m
                      else m[routes[0].account := ListAt(m, routes[0].account) + [routes[0].payload]];
      ListAt(m', account) == ListAt(m, account) + ForAccount(routes, account)
  {
    if routes != [] { assert routes[1..] == []; }
  }

  /** Payload by payload into one list per receiving account. */
  method GroupByAccount(sender: Address, ps: seq<DeniablePayload>, env: Surroundings, accounts: set<string>)
    returns (groups: Option<map<string, seq<DeniablePayload>>>)
    ensures groups.Some? <==> RouteAll(sender, ps, env, accounts).Some?
    ensures groups.Some? ==> forall account ::
      ListAt(groups.value, account) == ForAccount(RouteAll(sender, ps, env, accounts).value, account)
    ensures groups.Some? && sender.account in accounts ==>
      forall account :: account in groups.value ==> account in accounts
  {
    var m: map<string, seq<DeniablePayload>> := map[];
    for n := 0 to |ps|
      invariant RouteAll(sender, ps[..n], env, accounts).Some?
      invariant forall account ::
        ListAt(m, account) == ForAccount(RouteAll(sender, ps[..n], env, accounts).value, account)
      invariant sender.account in accounts ==> forall account :: account in m ==> account in accounts
    {
      assert ps[..n + 1] == ps[..n] + [ps[n]];
      RouteAllPush(sender, ps[..n], ps[n], env, accounts);
      var routes := Route(sender, ps[n], env, accounts);
      if routes.None? {
        RouteAllPrefixFails(sender, ps, n, env, accounts);
        return None;
      }
      forall account
        ensures ForAccount(RouteAll(sender, ps[..n + 1], env, accounts).value, account)
          == ListAt(m, account) + ForAccount(routes.value, account)
      {
        ForAccountConcat(RouteAll(sender, ps[..n], env, accounts).value, routes.value, account);
      }
      ghost var before := m;
      if routes.value != [] {
        var r := routes.value[0];
        m := m[r.account := ListAt(m, r.account) + [r.payload]];
      }
      forall account
        ensures ListAt(m, account) == ForAccount(RouteAll(sender, ps[..n + 1], env, accounts).value, account)
      {
        GroupOne(before, routes.value, account);
      }
    }
    assert ps[..|ps|] == ps;
    groups := Some(m);
  }

  // ---- Queueing for every device ----

  /** The queue of d as it was, with its account's payloads added if d is done. */
  ghost predicate QueueGrown(contents: map<QueueId, seq<Item>>, codec: Codec<DeniablePayload>,
                             before: map<QueueId, seq<Item>>, groups: map<string, seq<DeniablePayload>>,
                             done: iset<Address>, d: Address)
  {
    Pendings(ItemsIn(contents, PayloadBuffer(d)))
      == Pendings(ItemsIn(before, PayloadBuffer(d)))
         + (if d in done then Fresh(EncodeAll(codec, ListAt(groups, d.account))) else [])
  }

  /** Every queue grown as it should be, and nothing else touched. */
  ghost predicate Queued(contents: map<QueueId, seq<Item>>, codec: Codec<DeniablePayload>,
                         before: map<QueueId, seq<Item>>, groups: map<string, seq<DeniablePayload>>,
                         done: iset<Address>)
  {
    && (forall d: Address {:trigger QueueGrown(contents, codec, before, groups, done, d)} ::
          QueueGrown(contents, codec, before, groups, done, d))
    && (forall k: QueueId {:trigger ItemsIn(contents, k)} ::
          k.kind != PayloadQueue(Receiver) ==> ItemsIn(contents, k) == ItemsIn(before, k))
  }

  lemma QueuedStep(contents: map<QueueId, seq<Item>>, contents': map<QueueId, seq<Item>>, codec: Codec<DeniablePayload>,
                   before: map<QueueId, seq<Item>>, groups: map<string, seq<DeniablePayload>>, done: iset<Address>,
                   a: Address)
    requires Queued(contents, codec, before, groups, done) && a !in done
    requires Pendings(ItemsIn(contents', PayloadBuffer(a)))
          == Pendings(ItemsIn(contents, PayloadBuffer(a))) + Fresh(EncodeAll(codec, ListAt(groups, a.account)))
    requires forall k :: k != PayloadBuffer(a) ==> ItemsIn(contents', k) == ItemsIn(contents, k)
    ensures Queued(contents', codec, before, groups, done + iset{a})
  {
    forall d: Address ensures QueueGrown(contents', codec, before, groups, done + iset{a}, d) {
      assert QueueGrown(contents, codec, before, groups, done, d);
      if d == a {
        assert Pendings(ItemsIn(before, PayloadBuffer(d))) + [] == Pendings(ItemsIn(before, PayloadBuffer(d)));
      } else {
        assert PayloadBuffer(d) != PayloadBuffer(a);
      }
    }
  }

  /** The first devices of an account, as addresses. */
  ghost function DevicesOf(account: string, devices: seq<nat>): iset<Address> {
    iset d: Address | d.account == account && d.device in devices
  }

  lemma OneMoreDevice(account: string, devices: seq<nat>, n: nat)
    requires n < |devices| && DevicesDiffer(devices)
    ensures Address(account, devices[n]) !in DevicesOf(account, devices[..n])
    ensures DevicesOf(account, devices[..n + 1])
      == DevicesOf(account, devices[..n]) + iset{Address(account, devices[n])}
  {
    assert devices[..n + 1] == devices[..n] + [devices[n]];
  }

  method QueueForAccount(redis: Redis, uuids: Uuids, codec: Codec<DeniablePayload>, account: string, devices: seq<nat>,
                         groups: map<string, seq<DeniablePayload>>, now: nat,
                         ghost before: map<QueueId, seq<Item>>, ghost done: iset<Address>)
    requires redis.Valid() && Issued(redis.contents, uuids.next) && account in groups && DevicesDiffer(devices)
    requires Queued(redis.contents, codec, before, groups, done)
    requires forall d :: d in done ==> d.account != account
    modifies redis, uuids
    ensures redis.Valid() && Issued(redis.contents, uuids.next) && redis.locks == old(redis.locks)
    ensures Queued(redis.contents, codec, before, groups, done + DevicesOf(account, devices))
  {
    assert done + DevicesOf(account, devices[..0]) == done;
    for n := 0 to |devices|
      invariant redis.Valid() && Issued(redis.contents, uuids.next) && redis.locks == old(redis.locks)
      invariant Queued(redis.contents, codec, before, groups, done + DevicesOf(account, devices[..n]))
    {
      var address := Address(account, devices[n]);
      OneMoreDevice(account, devices, n);
      ghost var contents := redis.contents;
      EnqueueOutgoingPayloadBuffer(redis, uuids, codec, address, groups[account], now);
      ghost var contents' := redis.contents;
      forall k: QueueId | k != PayloadBuffer(address) ensures ItemsIn(contents', k) == ItemsIn(contents, k) {
        assert redis.Items(k) == ItemsIn(contents, k);
      }
      QueuedStep(contents, contents', codec, before, groups, done + DevicesOf(account, devices[..n]), address);
      assert done + DevicesOf(account, devices[..n]) + iset{address} == done + DevicesOf(account, devices[..n + 1]);
    }
    assert devices[..|devices|] == devices;
  }

  /** Accounts in no particular order, as the program's hash map gives them. */
  method QueueForDevices(redis: Redis, uuids: Uuids, codec: Codec<DeniablePayload>, dir: Directory,
                         groups: map<string, seq<DeniablePayload>>, now: nat)
    requires redis.Valid() && Issued(redis.contents, uuids.next) && ValidDirectory(dir)
    requires forall account :: account in groups ==> account in dir
    modifies redis, uuids
    ensures redis.Valid() && Issued(redis.contents, uuids.next) && redis.locks == old(redis.locks)
    ensures Queued(redis.contents, codec, old(redis.contents), groups,
                   iset d: Address | Listed(dir, d) && d.account in groups)
  {
    var todo := groups.Keys;
    ghost var done: iset<Address> := iset{};
    ghost var before := redis.contents;
    forall d: Address ensures QueueGrown(before, codec, before, groups, iset{}, d) {
      assert Pendings(ItemsIn(before, PayloadBuffer(d))) + [] == Pendings(ItemsIn(before, PayloadBuffer(d)));
    }
    while todo != {}
      invariant redis.Valid() && Issued(redis.contents, uuids.next) && redis.locks == old(redis.locks)
      invariant todo <= groups.Keys
      invariant done == iset d: Address | Listed(dir, d) && d.account in groups && d.account !in todo
      invariant Queued(redis.contents, codec, before, groups, done)
      decreases todo
    {
      var account :| account in todo;
      assert DevicesDiffer(dir[account]);
      QueueForAccount(redis, uuids, codec, account, dir[account], groups, now, before, done);
      done := done + DevicesOf(account, dir[account]);
      todo := todo - {account};
    }
    assert done == iset d: Address | Listed(dir, d) && d.account in groups;
  }

  // ---- The handler ----

  /** Routes reassembled payloads and queues them for every device of their accounts. */
  method RoutePayloads(redis: Redis, uuids: Uuids, codec: Codec<DeniablePayload>, dir: Directory,
                       sender: Address, payloads: seq<DeniablePayload>, env: Surroundings, now: nat)
    returns (ok: bool)
    requires redis.Valid() && Issued(redis.contents, uuids.next) && ValidDirectory(dir) && sender.account in dir
    modifies redis, uuids
    ensures redis.Valid() && Issued(redis.contents, uuids.next) && redis.locks == old(redis.locks)
    ensures ok <==> RouteAll(sender, payloads, env, dir.Keys).Some?
    ensures !ok ==> redis.contents == old(redis.contents)
    ensures ok ==> forall d: Address {:trigger Listed(dir, d)} :: Listed(dir, d) ==>
      Pendings(ItemsIn(redis.contents, PayloadBuffer(d))) == Pendings(ItemsIn(old(redis.contents), PayloadBuffer(d)))
        + Fresh(EncodeAll(codec, ForAccount(RouteAll(sender, payloads, env, dir.Keys).value, d.account)))
    ensures ok ==> forall k: QueueId {:trigger ItemsIn(redis.contents, k)} ::
      k.kind != PayloadQueue(Receiver) ==> ItemsIn(redis.contents, k) == ItemsIn(old(redis.contents), k)
  {
    var groups := GroupByAccount(sender, payloads, env, dir.Keys);
    if groups.None? { return false; }
    ghost var before := redis.contents;
    QueueForDevices(redis, uuids, codec, dir, groups.value, now);
    ghost var done := iset a: Address | Listed(dir, a) && a.account in groups.value;
    NothingToQueue(codec);
    forall d: Address | Listed(dir, d) ensures
      Pendings(redis.Items(PayloadBuffer(d))) == Pendings(ItemsIn(before, PayloadBuffer(d)))
        + Fresh(EncodeAll(codec, ListAt(groups.value, d.account)))
    {
      assert QueueGrown(redis.contents, codec, before, groups.value, done, d);
    }
    ok := true;
  }

  lemma NothingToQueue(codec: Codec<DeniablePayload>)
    ensures Fresh(EncodeAll(codec, [])) == []
  {
  }

  /** Where the payloads of a flush go; None if one cannot be read or routed. */
  function Routes(codec: Codec<DeniablePayload>, sender: Address, data: seq<seq<Byte>>, env: Surroundings,
                  accounts: set<string>): Option<seq<Routed>>
  {
    var payloads := DecodeAll(codec, data);
    if payloads.None? then None else RouteAll(sender, payloads.value, env, accounts)
  }

  /** What a request that is answered without error does to the store. */
  ghost predicate Handled(before: map<QueueId, seq<Item>>, after: map<QueueId, seq<Item>>,
                          codec: Codec<DeniablePayload>,
                          dir: Directory, sender: Address, stored: seq<DenimChunk>, routes: seq<Routed>)
  {
    && HoldChunks(ItemsIn(after, ChunkBuffer(sender)), stored)
    && (forall k: QueueId {:trigger ItemsIn(after, k)} ::
          k.kind != PayloadQueue(Receiver) && k != ChunkBuffer(sender) ==> ItemsIn(after, k) == ItemsIn(before, k))
    && (forall d: Address {:trigger Listed(dir, d)} :: Listed(dir, d) ==>
          Pendings(ItemsIn(after, PayloadBuffer(d)))
            == Pendings(ItemsIn(before, PayloadBuffer(d))) + Fresh(EncodeAll(codec, ForAccount(routes, d.account))))
  }

  /** Key requests are answered for the first device of the regular message's destination. */
  function Asking(env: Surroundings, devices: seq<nat>): Surroundings {
    if devices == [] then env else env.(device := devices[0])
  }

  ghost predicate FlushFails(codec: Codec<DeniablePayload>, all: seq<DenimChunk>) {
    !PageSupported(all) || DecodeAll(codec, Flush(all).payloads).None?
  }

  /** What the sender's buffer holds after a request, whatever comes of it: a page that cannot
      be read is gone, and so are the payloads of one that was read. */
  ghost function BufferAfter(codec: Codec<DeniablePayload>, buffer: seq<DenimChunk>, cs: seq<DenimChunk>,
                             devices: seq<nat>): seq<DenimChunk>
  {
    var all := buffer + cs;
    if cs == [] || devices == [] then buffer
    else if HasFinal(cs) && FlushFails(codec, all) then all[Min(|all|, PAGE_SIZE)..]
    else Accept(buffer, cs).stored
  }

  /** The flush, and where its payloads go. */
  method FlushAndRoute(redis: Redis, uuids: Uuids, codec: Codec<DeniablePayload>, dir: Directory, sender: Address,
                       env: Surroundings, now: nat, ghost all: seq<DenimChunk>)
    returns (ok: bool)
    requires redis.Valid() && Issued(redis.contents, uuids.next) && ValidDirectory(dir) && sender.account in dir
    requires HoldChunks(redis.Items(ChunkBuffer(sender)), all) && ChunkBuffer(sender) !in redis.locks
    modifies redis, uuids
    ensures redis.Valid() && Issued(redis.contents, uuids.next) && redis.locks == old(redis.locks)
    ensures ok <==> PageSupported(all) && Routes(codec, sender, Flush(all).payloads, env, dir.Keys).Some?
    ensures ok ==> Handled(old(redis.contents), redis.contents, codec, dir, sender, Flush(all).stored,
      Routes(codec, sender, Flush(all).payloads, env, dir.Keys).value)
    ensures HoldChunks(redis.Items(ChunkBuffer(sender)),
      if FlushFails(codec, all) then all[Min(|all|, PAGE_SIZE)..] else Flush(all).stored)
    ensures !ok ==> forall k :: k != ChunkBuffer(sender) ==> redis.Items(k) == old(redis.Items(k))
  {
    ghost var before := redis.contents;
    var flushed := FlushIncomingChunkBuffer(redis, uuids, codec, sender, now, all);
    if flushed.None? { return false; }
    ghost var read := redis.contents;
    forall k: QueueId | k != ChunkBuffer(sender) ensures ItemsIn(read, k) == ItemsIn(before, k) {
      assert redis.Items(k) == ItemsIn(read, k);
    }
    ok := RoutePayloads(redis, uuids, codec, dir, sender, flushed.value, env, now);
  }

  /** A device's queue has grown by what becomes of the payloads that concern its account. */
  ghost predicate QueueAnswers(before: map<QueueId, seq<Item>>, after: map<QueueId, seq<Item>>,
                               codec: Codec<DeniablePayload>, sender: Address, ps: seq<DeniablePayload>,
                               env: Surroundings, d: Address)
  {
    exists out :: RoutedTo(sender, ps, env, d.account, out)
      && Pendings(ItemsIn(after, PayloadBuffer(d)))
        == Pendings(ItemsIn(before, PayloadBuffer(d))) + Fresh(EncodeAll(codec, out))
  }

  ghost predicate AllQueuesAnswer(before: map<QueueId, seq<Item>>, after: map<QueueId, seq<Item>>,
                                  codec: Codec<DeniablePayload>, dir: Directory, sender: Address,
                                  ps: seq<DeniablePayload>, env: Surroundings)
  {
    forall d: Address {:trigger Listed(dir, d)} :: Listed(dir, d) ==>
      QueueAnswers(before, after, codec, sender, ps, env, d)
  }

  lemma HandledAnswers(before: map<QueueId, seq<Item>>, after: map<QueueId, seq<Item>>, codec: Codec<DeniablePayload>,
                       dir: Directory, sender: Address, stored: seq<DenimChunk>, data: seq<seq<Byte>>,
                       env: Surroundings)
    requires Routes(codec, sender, data, env, dir.Keys).Some?
    requires Handled(before, after, codec, dir, sender, stored, Routes(codec, sender, data, env, dir.Keys).value)
    ensures AllQueuesAnswer(before, after, codec, dir, sender, DecodeAll(codec, data).value, env)
  {
    var ps := DecodeAll(codec, data).value;
    forall d: Address | Listed(dir, d) ensures QueueAnswers(before, after, codec, sender, ps, env, d) {
      RoutedExactly(sender, ps, env, dir.Keys, d.account);
    }
  }

  /** false is an error response or a panic; what a request that fails after its flush has
      read is gone. When it succeeds, every device's queue has grown by what becomes of the
      flushed payloads that concern its account. */
  method HandleReceivingChunks(redis: Redis, uuids: Uuids, codec: Codec<DeniablePayload>, dir: Directory,
                               sender: Address, destination: string, carried: seq<DenimChunk>,
                               env: Surroundings, now: nat, ghost buffer: seq<DenimChunk>)
    returns (ok: bool)
    requires redis.Valid() && Issued(redis.contents, uuids.next) && ValidDirectory(dir)
    requires sender.account in dir && destination in dir
    requires HoldChunks(redis.Items(ChunkBuffer(sender)), buffer) && forall c :: c in carried ==> Encodable(c)
    requires ChunkBuffer(sender) !in redis.locks
    modifies redis, uuids
    ensures redis.Valid() && Issued(redis.contents, uuids.next) && redis.locks == old(redis.locks)
    ensures var cs := NonDummy(carried);
      ok <==> cs == [] || (dir[destination] != [] && (HasFinal(cs) ==>
        PageSupported(buffer + cs)
        && Routes(codec, sender, Accept(buffer, cs).payloads, Asking(env, dir[destination]), dir.Keys).Some?))
    ensures ok ==>
      var r := Accept(buffer, NonDummy(carried));
      var routes := Routes(codec, sender, r.payloads, Asking(env, dir[destination]), dir.Keys);
      && routes.Some? && Handled(old(redis.contents), redis.contents, codec, dir, sender, r.stored, routes.value)
      && AllQueuesAnswer(old(redis.contents), redis.contents, codec, dir, sender,
           DecodeAll(codec, r.payloads).value, Asking(env, dir[destination]))
    ensures HoldChunks(redis.Items(ChunkBuffer(sender)),
      BufferAfter(codec, buffer, NonDummy(carried), dir[destination]))
    ensures !ok ==> forall k :: k != ChunkBuffer(sender) ==> redis.Items(k) == old(redis.Items(k))
  {
    ok := HandleChunks(redis, uuids, codec, dir, sender, destination, carried, env, now, buffer);
    if ok {
      ghost var r := Accept(buffer, NonDummy(carried));
      HandledAnswers(old(redis.contents), redis.contents, codec, dir, sender, r.stored, r.payloads,
        Asking(env, dir[destination]));
    }
  }

  method HandleChunks(redis: Redis, uuids: Uuids, codec: Codec<DeniablePayload>, dir: Directory,
                      sender: Address, destination: string, carried: seq<DenimChunk>,
                      env: Surroundings, now: nat, ghost buffer: seq<DenimChunk>)
    returns (ok: bool)
    requires redis.Valid() && Issued(redis.contents, uuids.next) && ValidDirectory(dir)
    requires sender.account in dir && destination in dir
    requires HoldChunks(redis.Items(ChunkBuffer(sender)), buffer) && forall c :: c in carried ==> Encodable(c)
    requires ChunkBuffer(sender) !in redis.locks
    modifies redis, uuids
    ensures redis.Valid() && Issued(redis.contents, uuids.next) && redis.locks == old(redis.locks)
    ensures var cs := NonDummy(carried);
      ok <==> cs == [] || (dir[destination] != [] && (HasFinal(cs) ==>
        PageSupported(buffer + cs)
        && Routes(codec, sender, Accept(buffer, cs).payloads, Asking(env, dir[destination]), dir.Keys).Some?))
    ensures ok ==>
      var r := Accept(buffer, NonDummy(carried));
      var routes := Routes(codec, sender, r.payloads, Asking(env, dir[destination]), dir.Keys);
      routes.Some? && Handled(old(redis.contents), redis.contents, codec, dir, sender, r.stored, routes.value)
    ensures HoldChunks(redis.Items(ChunkBuffer(sender)),
      BufferAfter(codec, buffer, NonDummy(carried), dir[destination]))
    ensures !ok ==> forall k :: k != ChunkBuffer(sender) ==> redis.Items(k) == old(redis.Items(k))
  {
    var chunks := NonDummy(carried);
    NothingToQueue(codec);
    ghost var before := redis.contents;
    if chunks == [] {
      assert buffer + chunks == buffer;
      return true;
    }
    if dir[destination] == [] { return false; }
    EnqueueIncomingChunkBuffer(redis, uuids, sender, chunks, now, buffer);
    ghost var stored := redis.contents;
    forall k: QueueId | k != ChunkBuffer(sender) ensures ItemsIn(stored, k) == ItemsIn(before, k) {
      assert redis.Items(k) == ItemsIn(stored, k);
    }
    if !HasFinal(chunks) { return true; }
    ok := FlushAndRoute(redis, uuids, codec, dir, sender, Asking(env, dir[destination]), now, buffer + chunks);
  }

  // ---- Refinement ----

  /** The store's view of one device in the state machine. */
  ghost predicate Mirrors(contents: map<QueueId, seq<Item>>, a: Address, n: Node) {
    HoldChunks(ItemsIn(contents, ChunkBuffer(a)), n.buffer) && Pendings(ItemsIn(contents, PayloadBuffer(a))) == n.queue
  }

  ghost predicate MirrorsAll(contents: map<QueueId, seq<Item>>, s: State) {
    forall a {:trigger Mirrors(contents, a, s[a])} :: a in s ==> Mirrors(contents, a, s[a])
  }

  /** The machine's devices are those of the directory. */
  ghost predicate SameDevices(dir: Directory, s: State) {
    && (forall a :: a in s <==> Listed(dir, a))
    && Accounts(s) == dir.Keys
  }

  /** What a request does to one device. */
  lemma RequestNodes(codec: Codec<DeniablePayload>, s: State, sender: Address, totals: seq<Budget>, env: Surroundings,
                     a: Address)
    requires sender in s && a in s && RequestStep(codec, s, sender, totals, env).Some?
    ensures var r := Accept(s[sender].buffer, Carried(s[sender], totals));
      var routes := Routes(codec, sender, r.payloads, env, Accounts(s));
      var s' := RequestStep(codec, s, sender, totals, env).value;
      && routes.Some? && a in s'
      && s'[a].buffer == (if a == sender then r.stored else s[a].buffer)
      && s'[a].queue == s[a].queue + Fresh(EncodeAll(codec, ForAccount(routes.value, a.account)))
  {
  }

  /** One device of a handled request, given what the machine does to it. */
  lemma HandledMirrors(before: map<QueueId, seq<Item>>, after: map<QueueId, seq<Item>>, codec: Codec<DeniablePayload>,
                       dir: Directory, sender: Address, stored: seq<DenimChunk>, routes: seq<Routed>, a: Address,
                       n: Node, n': Node)
    requires Handled(before, after, codec, dir, sender, stored, routes) && Listed(dir, a) && Mirrors(before, a, n)
    requires n'.buffer == if a == sender then stored else n.buffer
    requires n'.queue == n.queue + Fresh(EncodeAll(codec, ForAccount(routes, a.account)))
    ensures Mirrors(after, a, n')
  {
    assert a != sender ==> ChunkBuffer(a) != ChunkBuffer(sender);
    assert a != sender ==> ItemsIn(after, ChunkBuffer(a)) == ItemsIn(before, ChunkBuffer(a));
  }

  lemma RequestMirrors(before: map<QueueId, seq<Item>>, after: map<QueueId, seq<Item>>, codec: Codec<DeniablePayload>,
                       s: State, sender: Address, totals: seq<Budget>, env: Surroundings,
                       dir: Directory, routes: seq<Routed>)
    requires MirrorsAll(before, s) && sender in s && RequestStep(codec, s, sender, totals, env).Some?
    requires Routes(codec, sender, Accept(s[sender].buffer, Carried(s[sender], totals)).payloads, env, Accounts(s))
      == Some(routes)
    requires SameDevices(dir, s)
    requires Handled(before, after, codec, dir, sender,
      Accept(s[sender].buffer, Carried(s[sender], totals)).stored, routes)
    ensures MirrorsAll(after, RequestStep(codec, s, sender, totals, env).value)
  {
    var s' := RequestStep(codec, s, sender, totals, env).value;
    var stored := Accept(s[sender].buffer, Carried(s[sender], totals)).stored;
    forall a | a in s' ensures Mirrors(after, a, s'[a]) {
      RequestNodes(codec, s, sender, totals, env, a);
      assert Mirrors(before, a, s[a]);
      HandledMirrors(before, after, codec, dir, sender, stored, routes, a, s[a], s'[a]);
    }
  }

  /** In every reachable state the chunks a request flushes are of known kinds. */
  lemma InvSupported(codec: Codec<DeniablePayload>, s: State, a: Address, totals: seq<Budget>)
    requires Inv(codec, s) && a in s
    ensures PageSupported(s[a].buffer + Carried(s[a], totals))
  {
    assert NodeInv(codec, s[a]);
    AcceptKnown(s[a], totals);
    var all := s[a].buffer + Carried(s[a], totals);
    forall i | 0 <= i < Min(|all|, PAGE_SIZE) ensures all[i].flags <= 2 { assert all[i] in all; }
  }

  /** The chunks of all messages of a request, in order. */
  method FoldChunks(messages: seq<seq<DenimChunk>>) returns (chunks: seq<DenimChunk>)
    ensures chunks == Flatten(messages)
  {
    chunks := [];
    for n := 0 to |messages|
      invariant chunks + Flatten(messages[n..]) == Flatten(messages)
    {
      assert messages[n..][0] == messages[n] && messages[n..][1..] == messages[n + 1..];
      chunks := chunks + messages[n];
    }
    assert messages[|messages|..] == [] && chunks + [] == chunks;
  }

  /** A request that fails after its flush. */
  lemma DroppedMirrors(before: map<QueueId, seq<Item>>, after: map<QueueId, seq<Item>>,
                       codec: Codec<DeniablePayload>, s: State, sender: Address, totals: seq<Budget>)
    requires MirrorsAll(before, s) && sender in s && Flushed(codec, s[sender], totals).Some?
    requires forall k: QueueId :: k != ChunkBuffer(sender) ==> ItemsIn(after, k) == ItemsIn(before, k)
    requires HoldChunks(ItemsIn(after, ChunkBuffer(sender)),
      Accept(s[sender].buffer, Carried(s[sender], totals)).stored)
    ensures MirrorsAll(after, Dropped(codec, s, sender, totals))
  {
    var s' := Dropped(codec, s, sender, totals);
    forall a | a in s' ensures Mirrors(after, a, s'[a]) {
      assert Mirrors(before, a, s[a]);
      assert a != sender ==> ChunkBuffer(a) != ChunkBuffer(sender);
    }
  }

  /** Of an invariant state the buffer can always be read. */
  lemma BufferIsStored(codec: Codec<DeniablePayload>, s: State, a: Address, totals: seq<Budget>, devices: seq<nat>)
    requires Inv(codec, s) && a in s && Flushed(codec, s[a], totals).Some? && devices != []
    ensures var n, cs := s[a], Carried(s[a], totals);
      BufferAfter(codec, n.buffer, cs, devices) == Accept(n.buffer, cs).stored
  {
    InvSupported(codec, s, a, totals);
    assert s[a].buffer + [] == s[a].buffer;
  }

  /** The handler implements the machine: from a store that mirrors a reachable state, a
      request whose messages carry the client's chunks succeeds exactly when the machine's
      step does, and either way leaves a store that mirrors the machine's next state. */
  method HandlePutMessages(redis: Redis, uuids: Uuids, codec: Codec<DeniablePayload>, dir: Directory, sender: Address,
                           destination: string, messages: seq<seq<DenimChunk>>, env: Surroundings, now: nat,
                           ghost s: State, ghost totals: seq<Budget>)
    returns (ok: bool)
    requires redis.Valid() && Issued(redis.contents, uuids.next) && ValidDirectory(dir) && SameDevices(dir, s)
    requires MirrorsAll(redis.contents, s) && sender in s && destination in dir && dir[destination] != []
    requires ChunkBuffer(sender) !in redis.locks
    requires Flatten(messages) == ClientRun(s[sender].outbox, totals).chunks
    requires forall c :: c in Flatten(messages) ==> Encodable(c)
    requires codec.RoundTrips() && Inv(codec, s) && Covered(s, Request(sender, totals, env))
    modifies redis, uuids
    ensures redis.Valid() && Issued(redis.contents, uuids.next) && redis.locks == old(redis.locks)
    ensures var ev := Request(sender, totals, Asking(env, dir[destination]));
      && (ok <==> Step(codec, s, ev).Some?)
      && MirrorsAll(redis.contents, Attempt(codec, s, ev))
  {
    assert Mirrors(redis.contents, sender, s[sender]);
    ghost var before := redis.contents;
    var chunks := FoldChunks(messages);
    ok := HandleChunks(redis, uuids, codec, dir, sender, destination, chunks, env, now, s[sender].buffer);
    forall k: QueueId ensures ItemsIn(redis.contents, k) == redis.Items(k) {}
    HandlerRefines(before, redis.contents, codec, s, sender, totals, Asking(env, dir[destination]), dir,
      dir[destination], ok);
  }

  /** The handler fails exactly when the step does. */
  lemma HandlerFails(codec: Codec<DeniablePayload>, s: State, sender: Address, totals: seq<Budget>, env: Surroundings)
    requires codec.RoundTrips() && Inv(codec, s) && sender in s && Covered(s, Request(sender, totals, env))
    ensures Flushed(codec, s[sender], totals).Some? && PageSupported(s[sender].buffer + Carried(s[sender], totals))
    ensures var n, cs := s[sender], Carried(s[sender], totals);
      var routes := Routes(codec, sender, Accept(n.buffer, cs).payloads, env, Accounts(s));
      && (RequestStep(codec, s, sender, totals, env).Some? <==> routes.Some?)
      && (!HasFinal(cs) ==> routes.Some?)
  {
    var ps := RequestKeeps(codec, s, sender, totals, env);
    InvSupported(codec, s, sender, totals);
    WithoutFinal(codec, sender, s[sender].buffer, Carried(s[sender], totals), env, Accounts(s));
  }

  lemma AttemptIs(codec: Codec<DeniablePayload>, s: State, sender: Address, totals: seq<Budget>, env: Surroundings)
    requires sender in s && Flushed(codec, s[sender], totals).Some?
    ensures var next := RequestStep(codec, s, sender, totals, env); var ev := Request(sender, totals, env);
      && Step(codec, s, ev) == next
      && Attempt(codec, s, ev) == if next.Some? then next.value else Dropped(codec, s, sender, totals)
  {
  }

  /** What the handler promises of a request with chunks cs for a buffer. */
  ghost predicate Outcome(before: map<QueueId, seq<Item>>, after: map<QueueId, seq<Item>>,
                          codec: Codec<DeniablePayload>, dir: Directory, sender: Address, buffer: seq<DenimChunk>,
                          cs: seq<DenimChunk>, env: Surroundings, devices: seq<nat>, ok: bool)
  {
    var r := Accept(buffer, cs);
    var routes := Routes(codec, sender, r.payloads, env, dir.Keys);
    && (ok <==> cs == [] || (HasFinal(cs) ==> PageSupported(buffer + cs) && routes.Some?))
    && (ok ==> routes.Some? && Handled(before, after, codec, dir, sender, r.stored, routes.value))
    && HoldChunks(ItemsIn(after, ChunkBuffer(sender)), BufferAfter(codec, buffer, cs, devices))
    && (!ok ==> forall k: QueueId :: k != ChunkBuffer(sender) ==> ItemsIn(after, k) == ItemsIn(before, k))
  }

  lemma OutcomeIsStep(before: map<QueueId, seq<Item>>, after: map<QueueId, seq<Item>>, codec: Codec<DeniablePayload>,
                      s: State, sender: Address, totals: seq<Budget>, env: Surroundings, dir: Directory,
                      devices: seq<nat>, ok: bool)
    requires codec.RoundTrips() && Inv(codec, s) && sender in s && Covered(s, Request(sender, totals, env))
    requires Accounts(s) == dir.Keys
    requires Outcome(before, after, codec, dir, sender, s[sender].buffer, Carried(s[sender], totals), env, devices, ok)
    ensures Flushed(codec, s[sender], totals).Some?
    ensures ok <==> RequestStep(codec, s, sender, totals, env).Some?
  {
    HandlerFails(codec, s, sender, totals, env);
  }

  lemma HandlerRefines(before: map<QueueId, seq<Item>>, after: map<QueueId, seq<Item>>, codec: Codec<DeniablePayload>,
                       s: State, sender: Address, totals: seq<Budget>, env: Surroundings, dir: Directory,
                       devices: seq<nat>, ok: bool)
    requires codec.RoundTrips() && Inv(codec, s) && sender in s && Covered(s, Request(sender, totals, env))
    requires MirrorsAll(before, s) && SameDevices(dir, s) && devices != []
    requires Outcome(before, after, codec, dir, sender, s[sender].buffer, Carried(s[sender], totals), env, devices, ok)
    ensures var ev := Request(sender, totals, env);
      (ok <==> Step(codec, s, ev).Some?) && MirrorsAll(after, Attempt(codec, s, ev))
  {
    var n, cs := s[sender], Carried(s[sender], totals);
    OutcomeIsStep(before, after, codec, s, sender, totals, env, dir, devices, ok);
    AttemptIs(codec, s, sender, totals, env);
    if ok {
      var routes := Routes(codec, sender, Accept(n.buffer, cs).payloads, env, dir.Keys);
      RequestMirrors(before, after, codec, s, sender, totals, env, dir, routes.value);
    } else {
      BufferIsStored(codec, s, sender, totals, devices);
      DroppedMirrors(before, after, codec, s, sender, totals);
    }
  }

  /** Without a final chunk nothing is read, and nothing routed. */
  lemma WithoutFinal(codec: Codec<DeniablePayload>, sender: Address, buffer: seq<DenimChunk>, cs: seq<DenimChunk>,
                     env: Surroundings, accounts: set<string>)
    ensures !HasFinal(cs) ==> Routes(codec, sender, Accept(buffer, cs).payloads, env, accounts) == Some([])
  {
  }

  /** The same for a delivery: the chunks and ballast made for device d are those of the
      machine, and so is the queue left behind. */
  method DeliverTo(redis: Redis, d: Address, total: Budget, ghost s: State)
    returns (chunks: seq<DenimChunk>, ballast: seq<Byte>)
    requires redis.Valid() && MirrorsAll(redis.contents, s) && d in s && PayloadBuffer(d) !in redis.locks
    modifies redis
    ensures redis.Valid() && redis.locks == old(redis.locks) && NoNewGuids(old(redis.contents), redis.contents)
    ensures var cut := ServerFill(s[d].queue, total - EMPTY_VEC_SIZE);
      chunks == cut.chunks && |ballast| == cut.left && MirrorsAll(redis.contents, s[d := s[d].(queue := cut.rest)])
  {
    assert Mirrors(redis.contents, d, s[d]);
    ghost var before := redis.contents;
    chunks, ballast := CreateDenimMessage(redis, d, total);
    ghost var s' := s[d := s[d].(queue := ServerFill(s[d].queue, total - EMPTY_VEC_SIZE).rest)];
    forall a | a in s' ensures Mirrors(redis.contents, a, s'[a]) {
      assert Mirrors(before, a, s[a]);
      assert a != d ==> PayloadBuffer(a) != PayloadBuffer(d);
      assert redis.Items(ChunkBuffer(a)) == ItemsIn(before, ChunkBuffer(a));
      assert a != d ==> redis.Items(PayloadBuffer(a)) == ItemsIn(before, PayloadBuffer(a));
      assert redis.Seen(PayloadBuffer(d)) == Pendings(redis.Items(PayloadBuffer(d)));
    }
  }
}
