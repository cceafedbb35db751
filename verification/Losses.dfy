/** Runs in which requests may fail. A request fails after its flush, so everything that flush
    read is lost: whole messages, never parts of one, and never their order. */
module Losses {
  import opened Bincode
  import opened Chunks
  import opened Cutting
  import opened Streams
  import opened Assembly
  import opened Relay
  import opened DeniablePayloads
  import opened TwoHop
  import opened Delivery

  // ---- Lists with something left out ----

  /** x is y with some elements left out. */
  ghost predicate Subsequence<T>(x: seq<T>, y: seq<T>) {
    x == [] || (y != [] && ((x[0] == y[0] && Subsequence(x[1..], y[1..])) || Subsequence(x, y[1..])))
  }

  lemma {:induction false} SubsequenceSelf<T>(x: seq<T>)
    ensures Subsequence(x, x)
  {
    if x != [] { SubsequenceSelf(x[1..]); }
  }

  lemma {:induction false} SubsequenceLength<T>(x: seq<T>, y: seq<T>)
    requires Subsequence(x, y)
    ensures |x| <= |y| && (|x| == |y| ==> x == y)
    decreases |y|
  {
    if x != [] {
      if x[0] == y[0] && Subsequence(x[1..], y[1..]) {
        SubsequenceLength(x[1..], y[1..]);
        assert x == [x[0]] + x[1..] && y == [y[0]] + y[1..];
      } else {
        SubsequenceLength(x, y[1..]);
      }
    }
  }

  /** Both lists grow by the same, or only the longer one grows. */
  lemma {:induction false} SubsequenceGrows<T>(x: seq<T>, y: seq<T>, more: seq<T>)
    requires Subsequence(x, y)
    ensures Subsequence(x, y + more) && Subsequence(x + more, y + more)
    decreases |y|
  {
    if y == [] {
      assert x == [] && x + more == more && y + more == more;
      SubsequenceSelf(more);
    } else {
      assert (y + more)[0] == y[0] && (y + more)[1..] == y[1..] + more;
      if x != [] && x[0] == y[0] && Subsequence(x[1..], y[1..]) {
        assert (x + more)[0] == x[0] && (x + more)[1..] == x[1..] + more;
        SubsequenceGrows(x[1..], y[1..], more);
      } else {
        SubsequenceGrows(x, y[1..], more);
      }
    }
  }

  lemma {:induction false} PrefixOfSubsequence<T>(x: seq<T>, y: seq<T>, z: seq<T>)
    requires x <= y && Subsequence(y, z)
    ensures Subsequence(x, z)
    decreases |z|
  {
    if x != [] {
      if y[0] == z[0] && Subsequence(y[1..], z[1..]) {
        PrefixOfSubsequence(x[1..], y[1..], z[1..]);
      } else {
        PrefixOfSubsequence(x, y, z[1..]);
      }
    }
  }

  lemma {:induction false} AddressedSubsequence(x: seq<DeniablePayload>, y: seq<DeniablePayload>, account: string)
    requires Subsequence(x, y)
    ensures Subsequence(Addressed(x, account), Addressed(y, account))
    decreases |y|
  {
    if x != [] {
      var head, rest := Addressed([y[0]], account), Addressed(y[1..], account);
      assert y == [y[0]] + y[1..];
      AddressedConcat([y[0]], y[1..], account);
      if x[0] == y[0] && Subsequence(x[1..], y[1..]) {
        AddressedSubsequence(x[1..], y[1..], account);
        assert x == [x[0]] + x[1..];
        AddressedConcat([x[0]], x[1..], account);
        SubsequenceBehind(head, Addressed(x[1..], account), rest);
      } else {
        AddressedSubsequence(x, y[1..], account);
        SubsequenceInFront(head, Addressed(x, account), rest);
      }
    }
  }

  lemma {:induction false} SubsequenceBehind<T>(h: seq<T>, x: seq<T>, y: seq<T>)
    requires Subsequence(x, y)
    ensures Subsequence(h + x, h + y)
  {
    if h == [] { assert h + x == x && h + y == y; } else {
      assert (h + x)[0] == h[0] == (h + y)[0] && (h + x)[1..] == h[1..] + x && (h + y)[1..] == h[1..] + y;
      SubsequenceBehind(h[1..], x, y);
    }
  }

  lemma {:induction false} SubsequenceInFront<T>(h: seq<T>, x: seq<T>, y: seq<T>)
    requires Subsequence(x, y)
    ensures Subsequence(x, h + y)
  {
    if h == [] { assert h + y == y; } else {
      assert (h + y)[1..] == h[1..] + y;
      SubsequenceInFront(h[1..], x, y);
    }
  }

  // ---- Runs that go on after a failure ----

  function RunOn(codec: Codec<DeniablePayload>, s: State, events: seq<Event>): State
    decreases |events|
  {
    if events == [] then s else RunOn(codec, Attempt(codec, s, events[0]), events[1..])
  }

  /** Known devices act and no flush overruns its page. Nothing is asked of what is submitted
      or of the keys. */
  ghost predicate CoveredRun(codec: Codec<DeniablePayload>, s: State, events: seq<Event>)
    decreases |events|
  {
    events != [] ==>
      && Known(s, events[0]) && Covered(s, events[0]) && CoveredRun(codec, Attempt(codec, s, events[0]), events[1..])
  }

  /** What a device submits in the course of some events. */
  function SubmittedIn(events: seq<Event>, a: Address): seq<DeniablePayload> {
    if events == [] then []
    else (if events[0].Submit? && events[0].sender == a then [events[0].payload] else []) + SubmittedIn(events[1..], a)
  }

  /** What is passed on is part of what was read, in order. */
  ghost predicate AllParts(s: State) {
    forall a {:trigger Subsequence(s[a].passed, s[a].emitted)} :: a in s ==> Subsequence(s[a].passed, s[a].emitted)
  }

  /** A request, whatever comes of it, changes the sender's records alone, and either passes
      on all that it reads or nothing. */
  lemma AttemptRecords(codec: Codec<DeniablePayload>, s: State, ev: Event, b: Address)
    requires codec.RoundTrips() && Inv(codec, s) && Known(s, ev) && Covered(s, ev) && b in s
    ensures ev.Request? ==> Flushed(codec, s[ev.sender], ev.totals).Some?
    ensures var s' := Attempt(codec, s, ev);
      && b in s' && s'[b].submitted == s[b].submitted + SubmittedIn([ev], b)
      && var ps := if ev.Request? && ev.sender == b then Flushed(codec, s[b], ev.totals).value else [];
      && s'[b].emitted == s[b].emitted + ps
      && s'[b].passed == s[b].passed + if Step(codec, s, ev).Some? then ps else []
  {
    assert [ev][1..] == [];
    match ev
    case Submit(a, p) => assert s[b].submitted + [] == s[b].submitted;
    case Request(a, totals, env) => var ps := RequestKeeps(codec, s, a, totals, env);
    case Deliver(d, total) => DeliverKeeps(codec, s, d, total);
  }

  lemma AttemptParts(codec: Codec<DeniablePayload>, s: State, ev: Event)
    requires codec.RoundTrips() && Inv(codec, s) && AllParts(s) && Known(s, ev) && Covered(s, ev)
    ensures AllParts(Attempt(codec, s, ev))
  {
    var s' := Attempt(codec, s, ev);
    AttemptKeeps(codec, s, ev);
    forall b | b in s' ensures Subsequence(s'[b].passed, s'[b].emitted) {
      AttemptRecords(codec, s, ev, b);
      var ps := s'[b].emitted[|s[b].emitted|..];
      assert Subsequence(s[b].passed, s[b].emitted);
      SubsequenceGrows(s[b].passed, s[b].emitted, ps);
      assert s'[b].emitted == s[b].emitted + ps;
    }
  }

  lemma {:induction false} RunOnKeeps(codec: Codec<DeniablePayload>, s: State, events: seq<Event>)
    requires codec.RoundTrips() && Inv(codec, s) && AllParts(s) && CoveredRun(codec, s, events)
    ensures var s' := RunOn(codec, s, events); Inv(codec, s') && AllParts(s') && s'.Keys == s.Keys
    decreases |events|
  {
    if events != [] {
      AttemptKeeps(codec, s, events[0]);
      AttemptParts(codec, s, events[0]);
      RunOnKeeps(codec, Attempt(codec, s, events[0]), events[1..]);
    }
  }

  lemma {:induction false} RunOnSubmitted(codec: Codec<DeniablePayload>, s: State, events: seq<Event>, a: Address)
    requires codec.RoundTrips() && Inv(codec, s) && CoveredRun(codec, s, events) && a in s
    ensures var s' := RunOn(codec, s, events); a in s' && s'[a].submitted == s[a].submitted + SubmittedIn(events, a)
    decreases |events|
  {
    if events == [] {
      assert s[a].submitted + [] == s[a].submitted;
    } else {
      AttemptKeeps(codec, s, events[0]);
      AttemptRecords(codec, s, events[0], a);
      RunOnSubmitted(codec, Attempt(codec, s, events[0]), events[1..], a);
      SubmittedFirst(events, a);
      Regroup(s[a].submitted, SubmittedIn([events[0]], a), SubmittedIn(events[1..], a));
    }
  }

  lemma SubmittedFirst(events: seq<Event>, a: Address)
    requires events != []
    ensures SubmittedIn(events, a) == SubmittedIn([events[0]], a) + SubmittedIn(events[1..], a)
  {
    assert [events[0]][1..] == [];
  }

  lemma InitialParts(codec: Codec<DeniablePayload>, s: State)
    requires Initial(s)
    ensures Inv(codec, s) && AllParts(s) && forall a :: a in s ==> s[a].submitted == []
  {
    InitialInv(codec, s);
  }

  /** Delivery with failures. Over every run, whatever is submitted and whichever keys are
      missing: the messages d has received from a are part of those a submitted for d's
      account, in order, and a prefix of those the server passed on. Once d's queue is
      empty they are all of those. */
  lemma LossyFifo(codec: Codec<DeniablePayload>, s: State, events: seq<Event>, a: Address, d: Address)
    requires codec.RoundTrips() && Initial(s) && CoveredRun(codec, s, events)
    requires a in s && d in s && UniqueTag(s, a)
    ensures var s' := RunOn(codec, s, events);
      && a in s' && d in s'
      && Subsequence(Inbound(s', d, a), Addressed(SubmittedIn(events, a), d.account))
      && Inbound(s', d, a) <= Addressed(s'[a].passed, d.account)
      && (s'[d].queue == [] ==> Inbound(s', d, a) == Addressed(s'[a].passed, d.account))
  {
    InitialParts(codec, s);
    RunOnKeeps(codec, s, events);
    RunOnSubmitted(codec, s, events, a);
    var s' := RunOn(codec, s, events);
    SameTags(s, s', a);
    InvGivesFifo(codec, s', a, d);
    assert s[a].submitted + SubmittedIn(events, a) == SubmittedIn(events, a);
    PassedAreSubmitted(codec, s', a);
    AddressedSubsequence(s'[a].passed, s'[a].submitted, d.account);
    PrefixOfSubsequence(Inbound(s', d, a), Addressed(s'[a].passed, d.account), Addressed(s'[a].submitted, d.account));
  }

  lemma PassedAreSubmitted(codec: Codec<DeniablePayload>, s: State, a: Address)
    requires codec.RoundTrips() && Inv(codec, s) && AllParts(s) && a in s
    ensures Subsequence(s[a].passed, s[a].submitted)
  {
    var n := s[a];
    EmittedIsPrefix(codec, s, a);
    assert Subsequence(n.passed, n.emitted);
    SubsequenceGrows(n.passed, n.emitted, n.submitted[|n.emitted|..]);
    assert n.submitted == n.emitted + n.submitted[|n.emitted|..];
  }

  // ---- When something is lost ----

  /** How many payloads a flush read in vain. */
  function Lost(n: Node): int { |n.emitted| - |n.passed| }

  /** Loss is final: it never shrinks. */
  lemma {:induction false} LossIsFinal(codec: Codec<DeniablePayload>, s: State, events: seq<Event>, a: Address)
    requires codec.RoundTrips() && Inv(codec, s) && AllParts(s) && CoveredRun(codec, s, events) && a in s
    ensures a in RunOn(codec, s, events) && Lost(RunOn(codec, s, events)[a]) >= Lost(s[a])
    decreases |events|
  {
    if events != [] {
      AttemptKeeps(codec, s, events[0]);
      AttemptParts(codec, s, events[0]);
      AttemptRecords(codec, s, events[0], a);
      LossIsFinal(codec, Attempt(codec, s, events[0]), events[1..], a);
    }
  }

  ghost predicate NothingLost(s: State) {
    forall a {:trigger s[a].passed} :: a in s ==> s[a].passed == s[a].emitted
  }

  /** A request that fails loses at least one payload. */
  lemma FailureLoses(codec: Codec<DeniablePayload>, s: State, ev: Event)
    requires codec.RoundTrips() && Inv(codec, s) && Known(s, ev) && Covered(s, ev) && Step(codec, s, ev).None?
    ensures ev.Request? && ev.sender in Attempt(codec, s, ev)
    ensures Lost(Attempt(codec, s, ev)[ev.sender]) > Lost(s[ev.sender])
  {
    AttemptKeeps(codec, s, ev);
    AttemptRecords(codec, s, ev, ev.sender);
    StepSucceeds(codec, s, ev);
    var ps := Flushed(codec, s[ev.sender], ev.totals).value;
    assert ps != [];
  }

  /** Nothing is lost over a run if and only if no request of it fails. */
  lemma {:induction false} LosslessExactly(codec: Codec<DeniablePayload>, s: State, events: seq<Event>)
    requires codec.RoundTrips() && Inv(codec, s) && AllParts(s) && NothingLost(s) && CoveredRun(codec, s, events)
    ensures NothingLost(RunOn(codec, s, events)) <==> Run(codec, s, events).Some?
    ensures Run(codec, s, events).Some? ==> Run(codec, s, events).value == RunOn(codec, s, events)
    decreases |events|
  {
    if events != [] {
      var ev, s1 := events[0], Attempt(codec, s, events[0]);
      AttemptKeeps(codec, s, ev);
      AttemptParts(codec, s, ev);
      if Step(codec, s, ev).Some? {
        forall a | a in s1 ensures s1[a].passed == s1[a].emitted { AttemptRecords(codec, s, ev, a); }
        LosslessExactly(codec, s1, events[1..]);
      } else {
        FailureLoses(codec, s, ev);
        LossIsFinal(codec, s1, events[1..], ev.sender);
        RunOnKeeps(codec, s1, events[1..]);
      }
    }
  }

  /** A run in which no request failed delivers in order, whatever was submitted. */
  lemma SuccessMeansFifo(codec: Codec<DeniablePayload>, s: State, events: seq<Event>, a: Address, d: Address)
    requires codec.RoundTrips() && Initial(s) && CoveredRun(codec, s, events) && Run(codec, s, events).Some?
    requires a in s && d in s && UniqueTag(s, a)
    ensures var s' := RunOn(codec, s, events);
      a in s' && d in s' && Inbound(s', d, a) <= Addressed(SubmittedIn(events, a), d.account)
  {
    InitialParts(codec, s);
    LosslessExactly(codec, s, events);
    RunOnKeeps(codec, s, events);
    RunOnSubmitted(codec, s, events, a);
    LossyFifo(codec, s, events, a, d);
    var s' := RunOn(codec, s, events);
    assert s[a].submitted + SubmittedIn(events, a) == SubmittedIn(events, a);
    EmittedIsPrefix(codec, s', a);
    assert s'[a].passed == s'[a].emitted;
    AddressedPrefix(s'[a].emitted, s'[a].submitted, d.account);
  }

  // ---- One payload that cannot be routed takes the others of its flush with it ----

  /** A device all of whose submissions are lost is heard of no more until it submits again. */
  lemma LostForGood(codec: Codec<DeniablePayload>, s: State, more: seq<Event>, a: Address, d: Address)
    requires codec.RoundTrips() && Inv(codec, s) && AllParts(s) && CoveredRun(codec, s, more)
    requires a in s && d in s && UniqueTag(s, a)
    requires Lost(s[a]) == |s[a].submitted| && SubmittedIn(more, a) == []
    ensures var s' := RunOn(codec, s, more); d in s' && Inbound(s', d, a) == []
  {
    RunOnKeeps(codec, s, more);
    RunOnSubmitted(codec, s, more, a);
    LossIsFinal(codec, s, more, a);
    var s' := RunOn(codec, s, more);
    EmittedIsPrefix(codec, s', a);
    assert s'[a].passed == [];
    SameTags(s, s', a);
    InvGivesFifo(codec, s', a, d);
  }

  /** Two payloads, each in a carrier of its own size, reach the server in one flush. */
  lemma TwoFlush(codec: Codec<DeniablePayload>, n: Node, q: DeniablePayload, m: DeniablePayload, t: Budget, u: Budget)
    requires codec.RoundTrips() && n.buffer == []
    requires n.outbox == [Pending(codec.enc(q), 0)] + [Pending(codec.enc(m), 0)]
    requires t == |codec.enc(q)| + EMPTY_VEC_SIZE + EMPTY_DENIMCHUNK_SIZE
    requires u == |codec.enc(m)| + EMPTY_VEC_SIZE + EMPTY_DENIMCHUNK_SIZE
    ensures Carried(n, [t, u]) == [FinalChunk(codec.enc(q))] + [FinalChunk(codec.enc(m))]
    ensures ClientRun(n.outbox, [t, u]).rest == []
    ensures Accept(n.buffer, Carried(n, [t, u])) == Received([codec.enc(q)] + [codec.enc(m)], [])
    ensures Flushed(codec, n, [t, u]) == Some([q] + [m])
  {
    var e, f := codec.enc(q), codec.enc(m);
    TwoCarriers(e, f, t, u);
    assert NonDummy([FinalChunk(e)] + [FinalChunk(f)]) == [FinalChunk(e)] + [FinalChunk(f)];
    TwoArrive(e, f);
    OneDecoded(codec, q);
    OneDecoded(codec, m);
    DecodeAllConcat(codec, [e], [f]);
  }

  lemma TwoCarriers(e: seq<Byte>, f: seq<Byte>, t: Budget, u: Budget)
    requires e != [] && f != []
    requires t == |e| + EMPTY_VEC_SIZE + EMPTY_DENIMCHUNK_SIZE && u == |f| + EMPTY_VEC_SIZE + EMPTY_DENIMCHUNK_SIZE
    ensures ClientRun([Pending(e, 0)] + [Pending(f, 0)], [t, u]) == CutRun([FinalChunk(e)] + [FinalChunk(f)], [])
  {
    var x, y := [Pending(e, 0)], [Pending(f, 0)];
    HeadCarrier(e, y);
    HeadCarrier(f, []);
    assert y + [] == y && (x + y)[1..] == y;
    assert [t, u][1..] == [u] && [u][1..] == [];
    assert ClientRun([], []) == CutRun([], []);
    assert ClientRun(y, [u]) == CutRun([FinalChunk(f)] + [], []);
  }

  lemma TwoArrive(e: seq<Byte>, f: seq<Byte>)
    ensures Accept([], [FinalChunk(e)] + [FinalChunk(f)]) == Received([e] + [f], [])
  {
    var c, d := FinalChunk(e), FinalChunk(f);
    OneFinal(c);
    OneFinal(d);
    AssembleConcat([c], [d], []);
    assert [] + ([c] + [d]) == [c] + [d];
    assert ([c] + [d])[0].IsFinal();
    FlushWhole([c] + [d]);
  }

  /** The run: q and then a message for d's account, and one request that carries both. */
  function TwoInOneFlush(codec: Codec<DeniablePayload>, a: Address, q: DeniablePayload, m: DeniablePayload,
                         env: Surroundings): seq<Event> {
    var t: Budget := |codec.enc(q)| + EMPTY_VEC_SIZE + EMPTY_DENIMCHUNK_SIZE;
    var u: Budget := |codec.enc(m)| + EMPTY_VEC_SIZE + EMPTY_DENIMCHUNK_SIZE;
    [Submit(a, q), Submit(a, m), Request(a, [t, u], env)]
  }

  /** A payload that cannot be routed, such as a request for keys that are not there, takes a
      message of the same flush with it. The message is read from the buffer and gone: no
      continuation in which a submits nothing more ever delivers it. */
  lemma OneStopsAnother(codec: Codec<DeniablePayload>, s: State, a: Address, d: Address, q: DeniablePayload,
                        m: DeniablePayload, env: Surroundings)
    requires codec.RoundTrips() && Initial(s) && a in s && d in s && UniqueTag(s, a)
    requires !(Routable(q, Accounts(s)) && Answers(env, q))
    requires m.SignalMessage? && m.destination == d.account && Routable(m, Accounts(s))
    ensures var events := TwoInOneFlush(codec, a, q, m, env);
      && CoveredRun(codec, s, events) && SubmittedIn(events, a) == [q, m]
      && Addressed([q, m], d.account) != []
      && forall more :: CoveredRun(codec, RunOn(codec, s, events), more) && SubmittedIn(more, a) == [] ==>
           var s' := RunOn(codec, RunOn(codec, s, events), more);
           d in s' && Inbound(s', d, a) == []
  {
    var events := TwoInOneFlush(codec, a, q, m, env);
    var s2 := TwoSubmits(codec, s, a, q, m);
    var s3 := FailedFlush(codec, s2, a, q, m, env);
    ThreeAttempts(codec, s, s2, s3, a, q, m, events[2]);
    assert [q, m][1..] == [m] && [m][1..] == [];
    InitialParts(codec, s);
    RunOnKeeps(codec, s, events);
    SameTags(s, s3, a);
    forall more | CoveredRun(codec, s3, more) && SubmittedIn(more, a) == []
      ensures d in RunOn(codec, s3, more) && Inbound(RunOn(codec, s3, more), d, a) == []
    {
      LostForGood(codec, s3, more, a, d);
    }
  }

  lemma ThreeAttempts(codec: Codec<DeniablePayload>, s: State, s2: State, s3: State, a: Address, q: DeniablePayload,
                      m: DeniablePayload, ev: Event)
    requires a in s && ev.Request? && Known(s2, ev) && Covered(s2, ev)
    requires s2 == Attempt(codec, Attempt(codec, s, Submit(a, q)), Submit(a, m)) && s3 == Attempt(codec, s2, ev)
    ensures var events := [Submit(a, q), Submit(a, m), ev];
      CoveredRun(codec, s, events) && RunOn(codec, s, events) == s3 && SubmittedIn(events, a) == [q, m]
  {
    var events := [Submit(a, q), Submit(a, m), ev];
    assert events[1..] == [Submit(a, m), ev] && events[1..][1..] == [ev] && [ev][1..] == [];
    assert RunOn(codec, s3, []) == s3 && CoveredRun(codec, s3, []);
    assert RunOn(codec, s2, [ev]) == s3 && CoveredRun(codec, s2, [ev]) && SubmittedIn([ev], a) == [];
    assert SubmittedIn(events[1..], a) == [m] + [];
  }

  lemma TwoSubmits(codec: Codec<DeniablePayload>, s: State, a: Address, q: DeniablePayload, m: DeniablePayload)
    returns (s2: State)
    requires Initial(s) && a in s
    ensures s2 == Attempt(codec, Attempt(codec, s, Submit(a, q)), Submit(a, m))
    ensures a in s2 && s2[a].outbox == [Pending(codec.enc(q), 0)] + [Pending(codec.enc(m), 0)] && s2[a].buffer == []
    ensures s2[a].submitted == [q, m] && s2[a].emitted == s2[a].passed == [] && s2.Keys == s.Keys
  {
    s2 := Attempt(codec, Attempt(codec, s, Submit(a, q)), Submit(a, m));
    assert [] + [q] + [m] == [q, m];
  }

  lemma FailedFlush(codec: Codec<DeniablePayload>, s: State, a: Address, q: DeniablePayload, m: DeniablePayload,
                    env: Surroundings) returns (s': State)
    requires codec.RoundTrips() && a in s && s[a].buffer == []
    requires s[a].outbox == [Pending(codec.enc(q), 0)] + [Pending(codec.enc(m), 0)]
    requires s[a].submitted == [q, m] && s[a].emitted == s[a].passed == []
    requires !(Routable(q, Accounts(s)) && Answers(env, q))
    ensures var ev := TwoInOneFlush(codec, a, q, m, env)[2];
      ev.Request? && Known(s, ev) && Covered(s, ev) && s' == Attempt(codec, s, ev)
    ensures a in s' && Lost(s'[a]) == |s'[a].submitted| && s'.Keys == s.Keys
  {
    var ev := TwoInOneFlush(codec, a, q, m, env)[2];
    TwoFlush(codec, s[a], q, m, ev.totals[0], ev.totals[1]);
    assert ev.totals == [ev.totals[0], ev.totals[1]];
    assert |s[a].buffer + Carried(s[a], ev.totals)| == 2;
    RouteAllSucceeds(a, [q] + [m], env, Accounts(s));
    assert ([q] + [m])[0] == q;
    RequestStepIs(codec, s, a, ev.totals, env, [q] + [m]);
    s' := Attempt(codec, s, ev);
    assert s'[a].emitted == [] + ([q] + [m]);
  }
}
