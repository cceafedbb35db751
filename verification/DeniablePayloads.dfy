/** What travels as a payload, and how the server turns a client's message into an envelope. */
module DeniablePayloads {
  import opened Bincode
  import opened Text

  datatype Address = Address(account: string, device: nat)

  datatype DeniablePayload =
    | SignalMessage(kind: int, destinationDevice: nat, destinationRegistration: nat, destination: string,
                    content: string)
    | Envelope(kind: int, sourceAccount: string, sourceDevice: nat, destination: string,
               timestamp: nat, serverTimestamp: nat, body: seq<Byte>)
    | KeyRequest(account: string)
    | KeyResponse(bundle: seq<Byte>)

  /** What the server looks up while it handles one request: times, the device key requests
      are answered for, and the keys of each device. None stands for an account without that
      device, or a device without keys. */
  datatype Surroundings = Surroundings(timestamp: nat, serverTimestamp: nat, device: nat,
                                       bundles: Address -> Option<seq<Byte>>)

  /** A payload on its way to every device of an account. */
  datatype Routed = Routed(account: string, payload: DeniablePayload)

  /** The sender's device id goes through an unsigned byte. */
  function DeviceByte(device: nat): nat { device % 256 }

  /** Where one reassembled payload goes: nowhere if its kind is not supported, and None
      where the handler fails: content that is not base64, an unknown account, or keys that
      are not there. */
  function Route(sender: Address, p: DeniablePayload, env: Surroundings, accounts: set<string>): Option<seq<Routed>> {
    match p
    case SignalMessage(kind, _, _, destination, content) =>
      var body := Decode(content);
      if body.None? || destination !in accounts then None
      else Some([Routed(destination, Envelope(kind, sender.account, DeviceByte(sender.device), destination,
                                              env.timestamp, env.serverTimestamp, body.value))])
    case KeyRequest(account) =>
      var bundle := env.bundles(Address(account, env.device));
      if account !in accounts || bundle.None? then None
      else Some([Routed(sender.account, KeyResponse(bundle.value))])
    case _ => Some([])
  }

  function RouteAll(sender: Address, ps: seq<DeniablePayload>, env: Surroundings,
                    accounts: set<string>): Option<seq<Routed>> {
    if ps == [] then Some([]) else
    var first := Route(sender, ps[0], env, accounts);
    var rest := RouteAll(sender, ps[1..], env, accounts);
    if first.None? || rest.None? then None else Some(first.value + rest.value)
  }

  /** The routed payloads for one account, in order. */
  function ForAccount(routes: seq<Routed>, account: string): seq<DeniablePayload> {
    if routes == [] then []
    else (if routes[0].account == account then [routes[0].payload] else []) + ForAccount(routes[1..], account)
  }

  lemma {:induction false} ForAccountConcat(x: seq<Routed>, y: seq<Routed>, account: string)
    ensures ForAccount(x + y, account) == ForAccount(x, account) + ForAccount(y, account)
  {
    if x == [] { assert x + y == y; } else {
      assert (x + y)[0] == x[0] && (x + y)[1..] == x[1..] + y;
      ForAccountConcat(x[1..], y, account);
      Regroup(if x[0].account == account then [x[0].payload] else [], ForAccount(x[1..], account),
        ForAccount(y, account));
    }
  }

  lemma Regroup<T>(x: seq<T>, y: seq<T>, z: seq<T>)
    ensures x + (y + z) == x + y + z
  {
  }

  // ---- The two views compared end to end ----

  /** A message as sender and receiver both see it. */
  datatype Message = Message(kind: int, body: seq<Byte>)

  /** The messages among submitted payloads that are addressed to an account. */
  function Addressed(ps: seq<DeniablePayload>, account: string): seq<Message> {
    if ps == [] then []
    else (if ps[0].SignalMessage? && ps[0].destination == account && Decode(ps[0].content).Some?
          then [Message(ps[0].kind, Decode(ps[0].content).value)] else [])
         + Addressed(ps[1..], account)
  }

  /** The messages among received payloads that name a sender's account and, as a byte, its
      device. */
  function SentBy(ps: seq<DeniablePayload>, sender: Address): seq<Message> {
    if ps == [] then []
    else (if ps[0].Envelope? && ps[0].sourceAccount == sender.account && ps[0].sourceDevice == sender.device % 256
          then [Message(ps[0].kind, ps[0].body)] else [])
         + SentBy(ps[1..], sender)
  }

  lemma {:induction false} AddressedConcat(x: seq<DeniablePayload>, y: seq<DeniablePayload>, account: string)
    ensures Addressed(x + y, account) == Addressed(x, account) + Addressed(y, account)
  {
    if x == [] { assert x + y == y; } else {
      assert (x + y)[1..] == x[1..] + y;
      AddressedConcat(x[1..], y, account);
    }
  }

  lemma {:induction false} SentByConcat(x: seq<DeniablePayload>, y: seq<DeniablePayload>, sender: Address)
    ensures SentBy(x + y, sender) == SentBy(x, sender) + SentBy(y, sender)
  {
    if x == [] { assert x + y == y; } else {
      assert (x + y)[1..] == x[1..] + y;
      SentByConcat(x[1..], y, sender);
    }
  }

  predicate SameTag(a: Address, b: Address) {
    a.account == b.account && (a.device - b.device) % 256 == 0
  }

  lemma SameTagIs(a: Address, b: Address)
    ensures SameTag(a, b) <==> a.account == b.account && a.device % 256 == b.device % 256
    ensures SameTag(a, b) <==> SameTag(b, a)
  {
  }

  /** Routing keeps order and attribution: of what reaches an account, the part naming
      another sender is exactly what that sender addressed to it. */
  lemma {:induction false} RouteAllKeeps(sender: Address, ps: seq<DeniablePayload>, env: Surroundings,
                                         accounts: set<string>, other: Address, account: string)
    ensures RouteAll(sender, ps, env, accounts).Some? ==>
      SentBy(ForAccount(RouteAll(sender, ps, env, accounts).value, account), other)
        == if SameTag(sender, other) then Addressed(ps, account) else []
  {
    if ps != [] && RouteAll(sender, ps, env, accounts).Some? {
      var first := Route(sender, ps[0], env, accounts).value;
      var rest := RouteAll(sender, ps[1..], env, accounts).value;
      RouteAllKeeps(sender, ps[1..], env, accounts, other, account);
      ForAccountConcat(first, rest, account);
      SentByConcat(ForAccount(first, account), ForAccount(rest, account), other);
      SameTagIs(sender, other);
    }
  }

  // ---- Routing described payload by payload ----

  /** p has something to say to an account: a message for it, or a key request that one of
      its own devices has sent. */
  ghost predicate Concerns(sender: Address, p: DeniablePayload, account: string) {
    (p.SignalMessage? && p.destination == account) || (p.KeyRequest? && sender.account == account)
  }

  /** What becomes of p: an envelope with the message's kind and decoded content, the times of
      the request and the sender with its device id modulo 256; or the keys that the store
      has for the device asked about. */
  ghost predicate Becomes(sender: Address, env: Surroundings, p: DeniablePayload, r: DeniablePayload) {
    if p.SignalMessage? then
      && r.Envelope? && r.kind == p.kind && r.destination == p.destination && Decode(p.content) == Some(r.body)
      && r.sourceAccount == sender.account && r.sourceDevice < 256 && (sender.device - r.sourceDevice) % 256 == 0
      && r.timestamp == env.timestamp && r.serverTimestamp == env.serverTimestamp
    else
      p.KeyRequest? && r.KeyResponse? && env.bundles(Address(p.account, env.device)) == Some(r.bundle)
  }

  /** An envelope shows the very device of a sender whose id fits a byte. */
  lemma SmallDeviceShown(sender: Address, env: Surroundings, p: DeniablePayload, r: DeniablePayload)
    requires Becomes(sender, env, p, r) && p.SignalMessage? && sender.device < 256
    ensures r.sourceDevice == sender.device
  {
  }

  /** at says which of the payloads concern the account, in order. */
  ghost predicate Positions(sender: Address, ps: seq<DeniablePayload>, account: string, at: seq<nat>) {
    && (forall j, k :: 0 <= j < k < |at| ==> at[j] < at[k])
    && (forall j :: 0 <= j < |at| ==> at[j] < |ps| && Concerns(sender, ps[at[j]], account))
    && (forall i: nat :: i < |ps| && Concerns(sender, ps[i], account) ==> i in at)
  }

  /** out is what an account gets of the payloads a sender had flushed: what becomes of each
      that concerns it, in order, and nothing else. */
  ghost predicate RoutedTo(sender: Address, ps: seq<DeniablePayload>, env: Surroundings, account: string,
                           out: seq<DeniablePayload>) {
    exists at: seq<nat> :: Positions(sender, ps, account, at) && AllBecome(sender, env, ps, at, out)
  }

  ghost predicate AllBecome(sender: Address, env: Surroundings, ps: seq<DeniablePayload>, at: seq<nat>,
                            out: seq<DeniablePayload>) {
    |at| == |out| && forall j :: 0 <= j < |out| ==> at[j] < |ps| && Becomes(sender, env, ps[at[j]], out[j])
  }

  /** Routing gives every account exactly that. */
  lemma RoutedExactly(sender: Address, ps: seq<DeniablePayload>, env: Surroundings, accounts: set<string>,
                      account: string)
    requires RouteAll(sender, ps, env, accounts).Some?
    ensures RoutedTo(sender, ps, env, account, ForAccount(RouteAll(sender, ps, env, accounts).value, account))
  {
    var at := RoutedPositions(sender, ps, env, accounts, account);
  }

  lemma {:induction false} RoutedPositions(sender: Address, ps: seq<DeniablePayload>, env: Surroundings,
                                           accounts: set<string>, account: string) returns (at: seq<nat>)
    requires RouteAll(sender, ps, env, accounts).Some?
    ensures Positions(sender, ps, account, at)
    ensures AllBecome(sender, env, ps, at, ForAccount(RouteAll(sender, ps, env, accounts).value, account))
  {
    if ps == [] {
      at := [];
    } else {
      var first, rest := Route(sender, ps[0], env, accounts).value, RouteAll(sender, ps[1..], env, accounts).value;
      var more := RoutedPositions(sender, ps[1..], env, accounts, account);
      ForAccountConcat(first, rest, account);
      RoutedOne(sender, ps[0], env, accounts, account);
      var head: seq<nat> := if Concerns(sender, ps[0], account) then [0] else [];
      at := Shifted(head, more);
      ShiftedPositions(sender, ps, account, head, more);
      ShiftedBecome(sender, env, ps, head, more, ForAccount(first, account), ForAccount(rest, account));
    }
  }

  lemma ShiftedBecome(sender: Address, env: Surroundings, ps: seq<DeniablePayload>, head: seq<nat>, more: seq<nat>,
                      x: seq<DeniablePayload>, y: seq<DeniablePayload>)
    requires ps != [] && AllBecome(sender, env, ps[1..], more, y)
    requires |head| == |x| <= 1 && (head != [] ==> head[0] == 0 && Becomes(sender, env, ps[0], x[0]))
    ensures AllBecome(sender, env, ps, Shifted(head, more), x + y)
  {
    var at := Shifted(head, more);
    forall j | 0 <= j < |x + y| ensures at[j] < |ps| && Becomes(sender, env, ps[at[j]], (x + y)[j]) {
      if j >= |x| { InTail(ps, at[j]); }
    }
  }

  function Shifted(head: seq<nat>, more: seq<nat>): (at: seq<nat>) {
    head + seq(|more|, j requires 0 <= j < |more| => more[j] + 1)
  }

  lemma ShiftedPositions(sender: Address, ps: seq<DeniablePayload>, account: string, head: seq<nat>, more: seq<nat>)
    requires ps != [] && Positions(sender, ps[1..], account, more)
    requires head == if Concerns(sender, ps[0], account) then [0] else []
    ensures Positions(sender, ps, account, Shifted(head, more))
  {
    var at := Shifted(head, more);
    forall i: nat | i < |ps| && Concerns(sender, ps[i], account) ensures i in at {
      if i > 0 { InTail(ps, i); }
      FoundShifted(head, more, i);
    }
    forall j | 0 <= j < |at| ensures at[j] < |ps| && Concerns(sender, ps[at[j]], account) {
      if j >= |head| { InTail(ps, at[j]); }
    }
  }

  lemma InTail<T>(s: seq<T>, i: nat)
    requires 0 < i < |s|
    ensures s[1..][i - 1] == s[i]
  {
  }

  lemma FoundShifted(head: seq<nat>, more: seq<nat>, i: nat)
    requires if i == 0 then 0 in head else i - 1 in more
    ensures i in Shifted(head, more)
  {
    var at := Shifted(head, more);
    if i > 0 {
      var j :| 0 <= j < |more| && more[j] == i - 1;
      assert at[|head| + j] == i;
    } else {
      assert head <= at;
    }
  }

  lemma RoutedOne(sender: Address, p: DeniablePayload, env: Surroundings, accounts: set<string>, account: string)
    requires Route(sender, p, env, accounts).Some?
    ensures var out := ForAccount(Route(sender, p, env, accounts).value, account);
      if Concerns(sender, p, account) then |out| == 1 && Becomes(sender, env, p, out[0]) else out == []
  {
    var routes := Route(sender, p, env, accounts).value;
    if routes != [] { assert routes[1..] == []; }
  }

  // ---- Key responses ----

  /** The bundles among received payloads. */
  function Responses(ps: seq<DeniablePayload>): seq<seq<Byte>> {
    if ps == [] then [] else (if ps[0].KeyResponse? then [ps[0].bundle] else []) + Responses(ps[1..])
  }

  /** The bundles that payloads ask for, as far as there are any. */
  function BundlesFor(ps: seq<DeniablePayload>, env: Surroundings): seq<seq<Byte>> {
    if ps == [] then []
    else
      var rest := BundlesFor(ps[1..], env);
      if !ps[0].KeyRequest? then rest
      else
        var bundle := env.bundles(Address(ps[0].account, env.device));
        if bundle.None? then rest else [bundle.value] + rest
  }

  lemma {:induction false} ResponsesConcat(x: seq<DeniablePayload>, y: seq<DeniablePayload>)
    ensures Responses(x + y) == Responses(x) + Responses(y)
  {
    if x == [] { assert x + y == y; } else {
      assert (x + y)[1..] == x[1..] + y;
      ResponsesConcat(x[1..], y);
    }
  }

  lemma {:induction false} BundlesConcat(x: seq<DeniablePayload>, y: seq<DeniablePayload>, env: Surroundings)
    ensures BundlesFor(x + y, env) == BundlesFor(x, env) + BundlesFor(y, env)
  {
    if x == [] { assert x + y == y; } else {
      assert (x + y)[0] == x[0] && (x + y)[1..] == x[1..] + y;
      BundlesConcat(x[1..], y, env);
    }
  }

  /** The key responses routed to an account are, in order, the bundles asked for in the flush
      if the account is the sender's, and none otherwise. */
  lemma {:induction false} ResponsesRouted(sender: Address, ps: seq<DeniablePayload>, env: Surroundings,
                                           accounts: set<string>, account: string)
    ensures RouteAll(sender, ps, env, accounts).Some? ==>
      Responses(ForAccount(RouteAll(sender, ps, env, accounts).value, account))
        == if account == sender.account then BundlesFor(ps, env) else []
  {
    if ps != [] && RouteAll(sender, ps, env, accounts).Some? {
      var first := Route(sender, ps[0], env, accounts).value;
      var rest := RouteAll(sender, ps[1..], env, accounts).value;
      ResponsesRouted(sender, ps[1..], env, accounts, account);
      ForAccountConcat(first, rest, account);
      ResponsesConcat(ForAccount(first, account), ForAccount(rest, account));
      RoutedOne(sender, ps[0], env, accounts, account);
    }
  }

  /** A message for a known account with base64 content, or a request for a known account's
      keys. */
  ghost predicate Routable(p: DeniablePayload, accounts: set<string>) {
    && (p.SignalMessage? ==> p.destination in accounts && Decode(p.content).Some?)
    && (p.KeyRequest? ==> p.account in accounts)
  }

  /** The keys asked for are there. */
  ghost predicate Answers(env: Surroundings, p: DeniablePayload) {
    p.KeyRequest? ==> env.bundles(Address(p.account, env.device)).Some?
  }

  ghost predicate AllRoutable(ps: seq<DeniablePayload>, accounts: set<string>) {
    forall i :: 0 <= i < |ps| ==> Routable(ps[i], accounts)
  }

  ghost predicate AllAnswered(env: Surroundings, ps: seq<DeniablePayload>) {
    forall i :: 0 <= i < |ps| ==> Answers(env, ps[i])
  }

  lemma {:induction false} RouteAllSucceeds(sender: Address, ps: seq<DeniablePayload>, env: Surroundings,
                                            accounts: set<string>)
    ensures RouteAll(sender, ps, env, accounts).Some? <==> AllRoutable(ps, accounts) && AllAnswered(env, ps)
  {
    if ps != [] {
      RouteAllSucceeds(sender, ps[1..], env, accounts);
      assert Route(sender, ps[0], env, accounts).Some? <==> Routable(ps[0], accounts) && Answers(env, ps[0]);
      assert AllRoutable(ps, accounts) <==> Routable(ps[0], accounts) && AllRoutable(ps[1..], accounts) by {
        forall i | 0 < i < |ps| ensures ps[i] == ps[1..][i - 1] {}
      }
      assert AllAnswered(env, ps) <==> Answers(env, ps[0]) && AllAnswered(env, ps[1..]) by {
        forall i | 0 < i < |ps| ensures ps[i] == ps[1..][i - 1] {}
      }
    }
  }

  /** Only deliverable kinds ever leave the server. */
  ghost predicate Deliverable(ps: seq<DeniablePayload>) {
    forall i :: 0 <= i < |ps| ==> ps[i].Envelope? || ps[i].KeyResponse?
  }

  lemma {:induction false} RoutesAreDeliverable(sender: Address, ps: seq<DeniablePayload>, env: Surroundings,
                                                accounts: set<string>, account: string)
    ensures RouteAll(sender, ps, env, accounts).Some? ==>
      Deliverable(ForAccount(RouteAll(sender, ps, env, accounts).value, account))
  {
    if ps != [] && RouteAll(sender, ps, env, accounts).Some? {
      RoutesAreDeliverable(sender, ps[1..], env, accounts, account);
      ForAccountConcat(Route(sender, ps[0], env, accounts).value, RouteAll(sender, ps[1..], env, accounts).value,
        account);
    }
  }

  // ---- Lists of payloads on the wire ----

  function EncodeAll(codec: Codec<DeniablePayload>, ps: seq<DeniablePayload>): (bs: seq<seq<Byte>>)
    ensures |bs| == |ps| && forall i :: 0 <= i < |ps| ==> bs[i] == codec.enc(ps[i])
  {
    seq(|ps|, i requires 0 <= i < |ps| => codec.enc(ps[i]))
  }

  /** Deserializing stops at the first failure. */
  function DecodeAll(codec: Codec<DeniablePayload>, bs: seq<seq<Byte>>): Option<seq<DeniablePayload>> {
    if bs == [] then Some([]) else
    var first := codec.dec(bs[0]);
    var rest := DecodeAll(codec, bs[1..]);
    if first.None? || rest.None? then None else Some([first.value] + rest.value)
  }

  lemma {:induction false} DecodeAllConcat(codec: Codec<DeniablePayload>, x: seq<seq<Byte>>, y: seq<seq<Byte>>)
    ensures var a, b := DecodeAll(codec, x), DecodeAll(codec, y);
      DecodeAll(codec, x + y) == if a.None? || b.None? then None else Some(a.value + b.value)
  {
    if x == [] {
      assert x + y == y;
      if DecodeAll(codec, y).Some? { assert [] + DecodeAll(codec, y).value == DecodeAll(codec, y).value; }
    } else {
      assert (x + y)[0] == x[0] && (x + y)[1..] == x[1..] + y;
      DecodeAllConcat(codec, x[1..], y);
      var first, a, b := codec.dec(x[0]), DecodeAll(codec, x[1..]), DecodeAll(codec, y);
      if first.Some? && a.Some? && b.Some? { Regroup([first.value], a.value, b.value); }
    }
  }

  /** One more payload read, or the first that cannot be. */
  lemma DecodeNext(codec: Codec<DeniablePayload>, done: seq<seq<Byte>>, next: seq<Byte>, more: seq<seq<Byte>>)
    requires DecodeAll(codec, done).Some?
    ensures codec.dec(next).None? ==> DecodeAll(codec, done + [next] + more).None?
    ensures codec.dec(next).Some? ==>
      DecodeAll(codec, done + [next]) == Some(DecodeAll(codec, done).value + [codec.dec(next).value])
  {
    var one: seq<seq<Byte>> := [next];
    assert one[1..] == [] && DecodeAll(codec, []) == Some([]);
    if codec.dec(next).Some? { assert [codec.dec(next).value] + [] == [codec.dec(next).value]; }
    DecodeAllConcat(codec, done, one);
    DecodeAllConcat(codec, done + one, more);
  }

  lemma {:induction false} DecodeEncoded(codec: Codec<DeniablePayload>, ps: seq<DeniablePayload>)
    requires codec.RoundTrips()
    ensures DecodeAll(codec, EncodeAll(codec, ps)) == Some(ps)
  {
    if ps != [] {
      assert EncodeAll(codec, ps)[1..] == EncodeAll(codec, ps[1..]);
      DecodeEncoded(codec, ps[1..]);
      assert ps == [ps[0]] + ps[1..];
    }
  }

  lemma EncodeAllConcat(codec: Codec<DeniablePayload>, x: seq<DeniablePayload>, y: seq<DeniablePayload>)
    ensures EncodeAll(codec, x + y) == EncodeAll(codec, x) + EncodeAll(codec, y)
  {
  }

  lemma EncodeAllInjective(codec: Codec<DeniablePayload>, x: seq<DeniablePayload>, y: seq<DeniablePayload>)
    requires codec.RoundTrips() && EncodeAll(codec, x) == EncodeAll(codec, y)
    ensures x == y
  {
    DecodeEncoded(codec, x);
    DecodeEncoded(codec, y);
  }

  /** Bytes found inside an encoded list are the encoding of that part of the list. */
  lemma EncodedPart(codec: Codec<DeniablePayload>, done: seq<DeniablePayload>, part: seq<seq<Byte>>,
                    more: seq<seq<Byte>>, all: seq<DeniablePayload>) returns (ps: seq<DeniablePayload>)
    requires codec.RoundTrips()
    requires EncodeAll(codec, done) + (part + more) == EncodeAll(codec, all)
    ensures part == EncodeAll(codec, ps) && DecodeAll(codec, part) == Some(ps)
    ensures done + ps <= all && EncodeAll(codec, done + ps) + more == EncodeAll(codec, all)
  {
    var n, m := |done|, |part|;
    var whole := EncodeAll(codec, all);
    assert |whole| == n + m + |more|;
    ps := all[n..n + m];
    assert EncodeAll(codec, all[..n]) == whole[..n] == EncodeAll(codec, done);
    EncodeAllInjective(codec, done, all[..n]);
    assert EncodeAll(codec, ps) == whole[n..n + m] == part;
    DecodeEncoded(codec, ps);
    assert done + ps == all[..n + m];
  }
}
