/** Moving old message queues from the store to the database. */
module MessagePersister {
  import opened Bincode
  import opened Limits
  import opened SortedSet
  import opened Entries
  import opened QueueKeys
  import opened RedisQueues
  import opened Indexes
  import opened MessageCache
  import opened DueQueues
  import opened AgeBounds

  /** A clock that never runs back. */
  class Clock {
    var now: nat

    constructor (start: nat)
      ensures now == start
    {
      now := start;
    }

    method Read() returns (t: nat)
      modifies this
      ensures t == now && now >= old(now)
    {
      var later :| later >= now;
      now := later;
      t := now;
    }
  }

  // ---- The moments of one move ----

  /** Cache and database contents of one queue at one moment, and whether it is locked. */
  datatype Places = Places(cached: seq<Mail>, stored: seq<Mail>, locked: bool)

  /** m messages have left the cache, o more are in the database already, and the lock holds. */
  function Moment(cached: seq<Mail>, stored: seq<Mail>, m: nat, o: nat): Places
    requires m + o <= |cached|
  {
    Places(cached[m..], stored + cached[..m + o], true)
  }

  /** A batch of n: one moment after every push, and one after the removal. */
  function BatchTrace(cached: seq<Mail>, stored: seq<Mail>, m: nat, n: nat): (t: seq<Places>)
    requires m + n <= |cached|
    ensures |t| == n + 1
  {
    seq(n, i requires 0 <= i < n => Moment(cached, stored, m, i + 1)) + [Moment(cached, stored, m + n, 0)]
  }

  function BatchSize(cached: seq<Mail>, m: nat): nat
    requires m <= |cached|
  {
    |FirstBatch(cached[m..], MESSAGE_BATCH_LIMIT)|
  }

  /** The whole move: batch after batch. */
  function QueueTrace(cached: seq<Mail>, stored: seq<Mail>, m: nat): seq<Places>
    requires m <= |cached|
    decreases |cached| - m
  {
    if m == |cached| then []
    else BatchTrace(cached, stored, m, BatchSize(cached, m)) + QueueTrace(cached, stored, m + BatchSize(cached, m))
  }

  /** Every message of the queue is in the cache or in the database, in order, no more than
      one batch is in both, and the queue is locked. */
  ghost predicate NothingLost(s: Places, cached: seq<Mail>, stored: seq<Mail>) {
    exists m: nat, o: nat :: m + o <= |cached| && o <= MESSAGE_BATCH_LIMIT + 1 && s == Moment(cached, stored, m, o)
  }

  /** One message is copied to the end of the database. */
  ghost predicate Pushes(s: Places, t: Places) {
    t.cached == s.cached && |t.stored| == |s.stored| + 1 && t.stored[..|s.stored|] == s.stored
  }

  /** A batch leaves the cache that is the last thing the database has got: 101 messages, or
      all if there are fewer. */
  ghost predicate Removes(s: Places, t: Places) {
    t.stored == s.stored && RemovesBatch(s, t, if |s.cached| < 101 then |s.cached| else 101)
  }

  ghost predicate RemovesBatch(s: Places, t: Places, n: int) {
    && 0 < n <= |s.cached| && n <= |s.stored|
    && t.cached == s.cached[n..] && s.cached[..n] == s.stored[|s.stored| - n..]
  }

  /** The moments from one to another, each a push or the removal of one batch away from the
      one before, and none with a message missing. */
  ghost predicate SafeMove(moments: seq<Places>, cached: seq<Mail>, stored: seq<Mail>, first: Places, last: Places) {
    && moments != [] && moments[0] == first && moments[|moments| - 1] == last
    && (forall i :: 0 <= i < |moments| ==> NothingLost(moments[i], cached, stored))
    && (forall i :: 0 <= i < |moments| - 1 ==>
          Pushes(moments[i], moments[i + 1]) || Removes(moments[i], moments[i + 1]))
  }

  /** How often the cache shrinks from one moment to the next. */
  function Removals(moments: seq<Places>): nat {
    if |moments| < 2 then 0
    else (if |moments[1].cached| < |moments[0].cached| then 1 else 0) + Removals(moments[1..])
  }

  lemma {:induction false} RemovalsJoin(x: seq<Places>, b: Places, y: seq<Places>)
    ensures Removals(x + [b] + y) == Removals(x + [b]) + Removals([b] + y)
  {
    if x == [] {
      assert x + [b] == [b] && x + [b] + y == [b] + y;
    } else {
      assert (x + [b])[1..] == x[1..] + [b] && (x + [b] + y)[1..] == x[1..] + [b] + y;
      assert (x + [b] + y)[1] == (x + [b])[1];
      RemovalsJoin(x[1..], b, y);
    }
  }

  lemma {:induction false} NoRemovals(moments: seq<Places>)
    requires forall i, j :: 0 <= i < j < |moments| ==> moments[i].cached == moments[j].cached
    ensures Removals(moments) == 0
  {
    if |moments| >= 2 { NoRemovals(moments[1..]); }
  }

  /** A batch is one removal. */
  lemma BatchRemovesOnce(cached: seq<Mail>, stored: seq<Mail>, m: nat, n: nat)
    requires 0 < n && m + n <= |cached|
    ensures Removals([Moment(cached, stored, m, 0)] + BatchTrace(cached, stored, m, n)) == 1
  {
    var pushes := [Moment(cached, stored, m, 0)] + BatchTrace(cached, stored, m, n)[..n - 1];
    var last, end := Moment(cached, stored, m, n), Moment(cached, stored, m + n, 0);
    assert [Moment(cached, stored, m, 0)] + BatchTrace(cached, stored, m, n) == pushes + [last] + [end];
    RemovalsJoin(pushes, last, [end]);
    forall i | 0 <= i < |pushes + [last]| ensures (pushes + [last])[i].cached == cached[m..] {}
    NoRemovals(pushes + [last]);
    assert ([last] + [end])[1..] == [end];
  }

  /** A queue of n messages goes in batches of 101, the last one of what is left: the number
      of removals is n / 101 rounded up. */
  lemma {:induction false} QueueRemovals(cached: seq<Mail>, stored: seq<Mail>, m: nat)
    requires m <= |cached|
    ensures Removals([Moment(cached, stored, m, 0)] + QueueTrace(cached, stored, m)) == (|cached| - m + 100) / 101
    decreases |cached| - m
  {
    var start := Moment(cached, stored, m, 0);
    if m == |cached| {
      assert [start] + [] == [start];
    } else {
      var n := BatchSize(cached, m);
      QueueRemovals(cached, stored, m + n);
      BatchRemovesOnce(cached, stored, m, n);
      FirstBatchRemoves([start], BatchTrace(cached, stored, m, n), QueueTrace(cached, stored, m + n));
      BatchesLeft(|cached| - m, n);
    }
  }

  lemma FirstBatchRemoves(start: seq<Places>, batch: seq<Places>, rest: seq<Places>)
    requires batch != []
    ensures Removals(start + (batch + rest))
      == Removals(start + batch) + Removals([batch[|batch| - 1]] + rest)
  {
    var pushes, last := start + batch[..|batch| - 1], batch[|batch| - 1];
    assert start + batch == pushes + [last];
    assert start + (batch + rest) == pushes + [last] + rest;
    RemovalsJoin(pushes, last, rest);
  }

  lemma BatchesLeft(r: nat, n: nat)
    requires r > 0 && n == if r <= MESSAGE_BATCH_LIMIT then r else MESSAGE_BATCH_LIMIT + 1
    ensures (r + 100) / 101 == 1 + (r - n + 100) / 101
  {
  }

  lemma BatchIsSafe(cached: seq<Mail>, stored: seq<Mail>, m: nat, n: nat)
    requires m < |cached| && n == BatchSize(cached, m)
    ensures SafeMove([Moment(cached, stored, m, 0)] + BatchTrace(cached, stored, m, n), cached, stored,
                     Moment(cached, stored, m, 0), Moment(cached, stored, m + n, 0))
  {
    var moments := [Moment(cached, stored, m, 0)] + BatchTrace(cached, stored, m, n);
    forall i | 0 <= i <= n ensures moments[i] == Moment(cached, stored, m, i) {}
    forall i | 0 <= i < n ensures Pushes(moments[i], moments[i + 1]) { OnePush(cached, stored, m, i); }
    OneRemoval(cached, stored, m, n);
    forall i | 0 <= i <= n + 1 ensures NothingLost(moments[i], cached, stored) {
      assert moments[i] == if i <= n then Moment(cached, stored, m, i) else Moment(cached, stored, m + n, 0);
    }
  }

  lemma OnePush(cached: seq<Mail>, stored: seq<Mail>, m: nat, o: nat)
    requires m + o < |cached|
    ensures Pushes(Moment(cached, stored, m, o), Moment(cached, stored, m, o + 1))
  {
    assert stored + cached[..m + o + 1] == stored + cached[..m + o] + [cached[m + o]];
  }

  lemma OneRemoval(cached: seq<Mail>, stored: seq<Mail>, m: nat, n: nat)
    requires 0 < n && m + n <= |cached|
    ensures RemovesBatch(Moment(cached, stored, m, n), Moment(cached, stored, m + n, 0), n)
  {
    assert cached[m..][n..] == cached[m + n..];
    var s := stored + cached[..m + n];
    assert s[|s| - n..] == cached[m..m + n] == cached[m..][..n];
  }

  lemma SafeJoin(x: seq<Places>, y: seq<Places>, cached: seq<Mail>, stored: seq<Mail>, a: Places, b: Places, c: Places)
    requires SafeMove(x, cached, stored, a, b) && SafeMove([b] + y, cached, stored, b, c)
    ensures SafeMove(x + y, cached, stored, a, c)
  {
    var xy, ys := x + y, [b] + y;
    forall i | 0 <= i < |xy| ensures NothingLost(xy[i], cached, stored) {
      assert xy[i] == if i < |x| then x[i] else ys[i - |x| + 1];
    }
    forall i | 0 <= i < |xy| - 1 ensures Pushes(xy[i], xy[i + 1]) || Removes(xy[i], xy[i + 1]) {
      if i >= |x| - 1 { assert xy[i] == ys[i - |x| + 1] && xy[i + 1] == ys[i - |x| + 2]; }
    }
    assert xy[|xy| - 1] == ys[|ys| - 1];
  }

  /** The move of a queue is safe at every moment. */
  lemma {:induction false} QueueIsSafe(cached: seq<Mail>, stored: seq<Mail>, m: nat)
    requires m <= |cached|
    ensures SafeMove([Moment(cached, stored, m, 0)] + QueueTrace(cached, stored, m), cached, stored,
                     Moment(cached, stored, m, 0), Moment(cached, stored, |cached|, 0))
    decreases |cached| - m
  {
    var start := Moment(cached, stored, m, 0);
    if m == |cached| {
      assert [start] + [] == [start];
    } else {
      var n := BatchSize(cached, m);
      BatchIsSafe(cached, stored, m, n);
      QueueIsSafe(cached, stored, m + n);
      var batch, rest := BatchTrace(cached, stored, m, n), QueueTrace(cached, stored, m + n);
      SafeJoin([start] + batch, rest, cached, stored, start, Moment(cached, stored, m + n, 0),
        Moment(cached, stored, |cached|, 0));
      assert [start] + batch + rest == [start] + (batch + rest);
    }
  }

  // ---- One queue ----

  /** The messages go to the database one by one. */
  method PushMessageQueue(db: Database, name: string, device: nat, mails: seq<Mail>)
    returns (ghost moments: seq<seq<Mail>>)
    requires (name, device) in db.devices
    modifies db
    ensures db.Stored(name, device) == old(db.Stored(name, device)) + mails
    ensures forall a :: a != (name, device) ==> db.Stored(a.0, a.1) == old(db.Stored(a.0, a.1))
    ensures |moments| == |mails|
    ensures forall i :: 0 <= i < |mails| ==> moments[i] == old(db.Stored(name, device)) + mails[..i + 1]
  {
    moments := [];
    assert mails[..0] == [];
    for n := 0 to |mails|
      invariant db.Stored(name, device) == old(db.Stored(name, device)) + mails[..n]
      invariant forall a :: a != (name, device) ==> db.Stored(a.0, a.1) == old(db.Stored(a.0, a.1))
      invariant |moments| == n
      invariant forall i :: 0 <= i < n ==> moments[i] == old(db.Stored(name, device)) + mails[..i + 1]
    {
      assert old(db.Stored(name, device)) + mails[..n + 1] == old(db.Stored(name, device)) + mails[..n] + [mails[n]];
      db.Push(name, device, mails[n]);
      moments := moments + [db.Stored(name, device)];
    }
    assert mails[..|mails|] == mails;
  }

  method CollectGuids(mails: seq<Mail>) returns (guids: seq<string>)
    ensures guids == MailGuids(mails)
  {
    guids := [];
    for n := 0 to |mails|
      invariant guids == MailGuids(mails)[..n]
    {
      guids := guids + [mails[n].guid];
    }
  }

  /** One batch into the database, then out of the cache. */
  method PersistMessages(redis: Redis, db: Database, codec: Codec<Mail>, name: string, device: nat, mails: seq<Mail>,
                         ghost cached: seq<Mail>, ghost stored: seq<Mail>, ghost m: nat)
    returns (ghost trace: seq<Places>)
    requires redis.Valid() && AllMail(codec, redis.contents) && (name, device) in db.devices
    requires MailQueue(name, device) in redis.locks
    requires m + |mails| <= |cached| && mails == cached[m..m + |mails|]
    requires Mails(codec, redis.Items(MailQueue(name, device))) == cached[m..]
    requires db.Stored(name, device) == stored + cached[..m]
    modifies redis, db
    ensures redis.Valid() && AllMail(codec, redis.contents) && redis.locks == old(redis.locks)
    ensures Mails(codec, redis.Items(MailQueue(name, device))) == cached[m + |mails|..]
    ensures db.Stored(name, device) == stored + cached[..m + |mails|]
    ensures forall k :: k != MailQueue(name, device) ==> redis.Items(k) == old(redis.Items(k))
    ensures redis.Index(UserQueue) ==
      if m + |mails| == |cached| then ZRem(old(redis.Index(UserQueue)), KeyText(MailQueue(name, device)))
      else old(redis.Index(UserQueue))
    ensures forall a :: a != (name, device) ==> db.Stored(a.0, a.1) == old(db.Stored(a.0, a.1))
    ensures trace == BatchTrace(cached, stored, m, |mails|)
  {
    var k := MailQueue(name, device);
    BatchOff(codec, redis.queues, redis.contents, k, mails, cached, m);
    var guids := CollectGuids(mails);
    ghost var moments := PushMessageQueue(db, name, device, mails);
    ghost var before := Mails(codec, redis.Items(k));
    var removed := redis.Remove(k, guids);
    ghost var locked := k in redis.locks;
    trace := seq(|moments|, i requires 0 <= i < |moments| => Places(before, moments[i], locked))
      + [Places(Mails(codec, redis.Items(k)), db.Stored(name, device), k in redis.locks)];
    BatchMoments(cached, stored, m, mails, moments);
  }

  lemma BatchMoments(cached: seq<Mail>, stored: seq<Mail>, m: nat, mails: seq<Mail>, moments: seq<seq<Mail>>)
    requires m + |mails| <= |cached| && mails == cached[m..m + |mails|] && |moments| == |mails|
    requires forall i :: 0 <= i < |mails| ==> moments[i] == stored + cached[..m] + mails[..i + 1]
    ensures seq(|moments|, i requires 0 <= i < |moments| => Places(cached[m..], moments[i], true))
      + [Moment(cached, stored, m + |mails|, 0)] == BatchTrace(cached, stored, m, |mails|)
    ensures stored + cached[..m] + mails == stored + cached[..m + |mails|]
  {
    forall i | 0 <= i <= |mails| ensures stored + cached[..m] + mails[..i] == stored + cached[..m + i] {
      SplitPrefix(cached, m, mails, i);
      assert stored + cached[..m] + mails[..i] == stored + (cached[..m] + mails[..i]);
    }
    assert mails[..|mails|] == mails;
  }

  lemma SplitPrefix(cached: seq<Mail>, m: nat, mails: seq<Mail>, i: nat)
    requires m + |mails| <= |cached| && mails == cached[m..m + |mails|] && i <= |mails|
    ensures cached[..m] + mails[..i] == cached[..m + i]
  {
  }

  function MailGuids(mails: seq<Mail>): (g: seq<string>)
    ensures |g| == |mails| && forall i :: 0 <= i < |mails| ==> g[i] == mails[i].guid
  {
    seq(|mails|, i requires 0 <= i < |mails| => mails[i].guid)
  }

  lemma BatchGuids(codec: Codec<Mail>, items: seq<Item>, mails: seq<Mail>, cached: seq<Mail>, m: nat)
    requires HoldMails(codec, items, Mails(codec, items)) && m <= |cached| && Mails(codec, items) == cached[m..]
    requires m + |mails| <= |cached| && mails == cached[m..m + |mails|]
    ensures |mails| <= |items| && MailGuids(mails) == Guids(items[..|mails|])
  {
    forall i | 0 <= i < |mails| ensures mails[i].guid == items[i].guid {
      assert mails[i] == cached[m + i] == cached[m..][i] == Mails(codec, items)[i];
    }
  }

  lemma RestMail(codec: Codec<Mail>, contents: map<QueueId, seq<Item>>, k: QueueId, n: nat)
    requires AllMail(codec, contents) && k.kind == UserQueue && n <= |ItemsIn(contents, k)|
    ensures AllMail(codec, contents[k := ItemsIn(contents, k)[n..]])
  {
    var contents' := contents[k := ItemsIn(contents, k)[n..]];
    forall j: QueueId | j.kind == UserQueue ensures MailAt(codec, contents', j) {
      assert MailAt(codec, contents, j);
      PrefixMail(codec, ItemsIn(contents, k), n);
    }
  }

  /** What taking a batch of messages off a queue does. */
  lemma BatchOff(codec: Codec<Mail>, queues: map<QueueId, QueueData>, contents: map<QueueId, seq<Item>>, k: QueueId,
                 mails: seq<Mail>, cached: seq<Mail>, m: nat)
    requires AllComplete(queues, contents) && AllMail(codec, contents) && k.kind == UserQueue
    requires m + |mails| <= |cached| && mails == cached[m..m + |mails|]
    requires Mails(codec, ItemsIn(contents, k)) == cached[m..]
    ensures |mails| <= |ItemsIn(contents, k)|
    ensures var items, n := ItemsIn(contents, k), |mails|;
      && COUNTER !in MailGuids(mails)
      && RemoveGuids(items, MailGuids(mails)).rest == items[n..]
      && AllMail(codec, contents[k := items[n..]])
      && Mails(codec, items[n..]) == cached[m + n..]
  {
    var items, n := ItemsIn(contents, k), |mails|;
    assert MailAt(codec, contents, k);
    BatchGuids(codec, items, mails, cached, m);
    ReadListed(queues, contents, k);
    RemovePrefix(items, n);
    NoCounterAmong(items, n);
    PrefixMail(codec, items, n);
    RestMail(codec, contents, k, n);
    assert cached[m..][n..] == cached[m + n..];
  }

  lemma BatchIsSlice(cached: seq<Mail>, m: nat, mails: seq<Mail>)
    requires m <= |cached| && mails == FirstBatch(cached[m..], MESSAGE_BATCH_LIMIT)
    ensures m + |mails| <= |cached| && |mails| <= MESSAGE_BATCH_LIMIT + 1 && mails == cached[m..m + |mails|]
    ensures mails == [] <==> m == |cached|
  {
  }

  /** How far the move of a queue has come. */
  ghost predicate Progress(redis: Redis, db: Database, codec: Codec<Mail>, name: string, device: nat,
                           cached: seq<Mail>, stored: seq<Mail>, m: nat)
    reads redis, db
  {
    && redis.Valid() && AllMail(codec, redis.contents)
    && m <= |cached| && Mails(codec, redis.Items(MailQueue(name, device))) == cached[m..]
    && db.Stored(name, device) == stored + cached[..m]
  }

  /** Batch by batch until the queue is empty. */
  method DrainQueue(redis: Redis, db: Database, codec: Codec<Mail>, name: string, device: nat,
                    ghost cached: seq<Mail>, ghost stored: seq<Mail>)
    returns (ghost trace: seq<Places>)
    requires Progress(redis, db, codec, name, device, cached, stored, 0) && (name, device) in db.devices
    requires MailQueue(name, device) in redis.locks
    modifies redis, db
    ensures Progress(redis, db, codec, name, device, cached, stored, |cached|) && redis.locks == old(redis.locks)
    ensures forall k :: k != MailQueue(name, device) ==> redis.Items(k) == old(redis.Items(k))
    ensures forall a :: a != (name, device) ==> db.Stored(a.0, a.1) == old(db.Stored(a.0, a.1))
    ensures redis.Index(UserQueue) == DrainedIndex(old(redis.Index(UserQueue)), MailQueue(name, device), cached == [])
    ensures trace == QueueTrace(cached, stored, 0)
  {
    ghost var m := 0;
    trace := [];
    var mails := GetMessagesToPersist(redis, codec, name, device, MESSAGE_BATCH_LIMIT);
    while mails != []
      invariant Progress(redis, db, codec, name, device, cached, stored, m) && redis.locks == old(redis.locks)
      invariant mails == FirstBatch(cached[m..], MESSAGE_BATCH_LIMIT)
      invariant forall j :: j != MailQueue(name, device) ==> redis.Items(j) == old(redis.Items(j))
      invariant forall a :: a != (name, device) ==> db.Stored(a.0, a.1) == old(db.Stored(a.0, a.1))
      invariant redis.Index(UserQueue)
        == DrainedIndex(old(redis.Index(UserQueue)), MailQueue(name, device), m < |cached| || cached == [])
      invariant trace + QueueTrace(cached, stored, m) == QueueTrace(cached, stored, 0)
      decreases |cached| - m
    {
      BatchIsSlice(cached, m, mails);
      ghost var more := PersistMessages(redis, db, codec, name, device, mails, cached, stored, m);
      TraceGrows(trace, more, cached, stored, m, |mails|);
      trace := trace + more;
      m := m + |mails|;
      mails := GetMessagesToPersist(redis, codec, name, device, MESSAGE_BATCH_LIMIT);
    }
    BatchIsSlice(cached, m, mails);
    assert trace + [] == trace;
  }

  lemma TraceGrows(trace: seq<Places>, more: seq<Places>, cached: seq<Mail>, stored: seq<Mail>, m: nat, n: nat)
    requires m < |cached| && n == BatchSize(cached, m) && more == BatchTrace(cached, stored, m, n)
    ensures trace + more + QueueTrace(cached, stored, m + n) == trace + QueueTrace(cached, stored, m)
  {
  }

  /** A queue that held something leaves the index when it is drained. */
  function DrainedIndex(index: seq<Scored>, k: QueueId, untouched: bool): seq<Scored> {
    if untouched then index else ZRem(index, KeyText(k))
  }

  /** Index, queues and database at one moment of a run. */
  datatype Store = Store(index: seq<Scored>, contents: map<QueueId, seq<Item>>, mail: map<(string, nat), seq<Mail>>)

  ghost function StoreOf(redis: Redis, db: Database): Store
    reads redis, db
  {
    Store(redis.Index(UserQueue), redis.contents, db.mail)
  }

  /** The whole of queue q has gone to the database, and nothing else has changed. */
  ghost predicate QueueMoved(codec: Codec<Mail>, s: Store, t: Store, q: QueueId) {
    && ItemsIn(t.contents, q) == []
    && (forall k: QueueId {:trigger ItemsIn(t.contents, k)} :: k != q ==>
          ItemsIn(t.contents, k) == ItemsIn(s.contents, k))
    && StoredIn(t.mail, q.name, q.device) == StoredIn(s.mail, q.name, q.device) + Mails(codec, ItemsIn(s.contents, q))
    && (forall name: string, device: nat {:trigger StoredIn(t.mail, name, device)} ::
          (name, device) != (q.name, q.device) ==> StoredIn(t.mail, name, device) == StoredIn(s.mail, name, device))
    && t.index == DrainedIndex(s.index, q, ItemsIn(s.contents, q) == [])
  }

  lemma MovedQueue(codec: Codec<Mail>, redis: Redis, db: Database, s: Store, q: QueueId)
    requires redis.Items(q) == [] && forall k :: k != q ==> redis.Items(k) == ItemsIn(s.contents, k)
    requires db.Stored(q.name, q.device) == StoredIn(s.mail, q.name, q.device) + Mails(codec, ItemsIn(s.contents, q))
    requires forall a :: a != (q.name, q.device) ==> db.Stored(a.0, a.1) == StoredIn(s.mail, a.0, a.1)
    requires redis.Index(UserQueue) == DrainedIndex(s.index, q, ItemsIn(s.contents, q) == [])
    ensures QueueMoved(codec, s, StoreOf(redis, db), q)
  {
    forall k: QueueId | k != q ensures ItemsIn(redis.contents, k) == ItemsIn(s.contents, k) {
      assert redis.Items(k) == ItemsIn(redis.contents, k);
    }
    forall name, device: nat | (name, device) != (q.name, q.device)
      ensures StoredIn(db.mail, name, device) == StoredIn(s.mail, name, device)
    {
      assert db.Stored((name, device).0, (name, device).1) == StoredIn(db.mail, name, device);
    }
  }

  /** Moves a whole queue under its lock. It terminates; afterwards the database has what
      it had followed by what was cached, the cache is empty and the lock is free. trace has
      the moment after taking the lock and those after every push and every removal: the
      lock holds, nothing is ever lost, and each moment is one push or one removal of what
      is already stored away from the one before. */
  method PersistQueue(redis: Redis, db: Database, codec: Codec<Mail>, name: string, device: nat)
    returns (ghost trace: seq<Places>)
    requires redis.Valid() && AllMail(codec, redis.contents) && (name, device) in db.devices
    modifies redis, db
    ensures redis.Valid() && AllMail(codec, redis.contents)
    ensures redis.locks == old(redis.locks) - {MailQueue(name, device)}
    ensures redis.Items(MailQueue(name, device)) == []
    ensures forall k :: k != MailQueue(name, device) ==> redis.Items(k) == old(redis.Items(k))
    ensures db.Stored(name, device)
      == old(db.Stored(name, device)) + Mails(codec, old(redis.Items(MailQueue(name, device))))
    ensures forall a :: a != (name, device) ==> db.Stored(a.0, a.1) == old(db.Stored(a.0, a.1))
    ensures redis.Index(UserQueue)
      == DrainedIndex(old(redis.Index(UserQueue)), MailQueue(name, device),
        old(redis.Items(MailQueue(name, device))) == [])
    ensures QueueMoved(codec, old(StoreOf(redis, db)), StoreOf(redis, db), MailQueue(name, device))
    ensures var cached, stored := Mails(codec, old(redis.Items(MailQueue(name, device)))), old(db.Stored(name, device));
      && trace == [Moment(cached, stored, 0, 0)] + QueueTrace(cached, stored, 0)
      && SafeMove(trace, cached, stored, Places(cached, stored, true), Places([], stored + cached, true))
      && Removals(trace) == (|cached| + 100) / 101
  {
    var k := MailQueue(name, device);
    ghost var cached, stored := Mails(codec, redis.Items(k)), db.Stored(name, device);
    assert cached[0..] == cached && stored + cached[..0] == stored;
    ghost var before, was := redis.contents, StoreOf(redis, db);
    redis.Lock(k);
    ghost var first := Places(Mails(codec, redis.Items(k)), db.Stored(name, device), k in redis.locks);
    trace := DrainQueue(redis, db, codec, name, device, cached, stored);
    trace := [first] + trace;
    assert cached[..|cached|] == cached && cached[|cached|..] == [] && |redis.Items(k)| == 0;
    forall j | j != k ensures redis.Items(j) == ItemsIn(before, j) {}
    QueueIsSafe(cached, stored, 0);
    QueueRemovals(cached, stored, 0);
    redis.Unlock(k);
    MovedQueue(codec, redis, db, was, k);
  }

  // ---- All old queues ----

  /** The directory is read from the same database: its devices have rows. */
  ghost predicate Rows(dir: Registry, devices: set<(string, nat)>) {
    forall n, d :: n in dir && d in dir[n].devices ==> (dir[n].aci, d) in devices
  }

  ghost predicate Unmoved(c0: map<QueueId, seq<Item>>, m0: map<(string, nat), seq<Mail>>,
                          c: map<QueueId, seq<Item>>, m: map<(string, nat), seq<Mail>>, k: QueueId) {
    ItemsIn(c, k) == ItemsIn(c0, k) && StoredIn(m, k.name, k.device) == StoredIn(m0, k.name, k.device)
  }

  /** A queue is where it was, or all of it went to the database behind what was there. */
  ghost predicate MovedWhole(codec: Codec<Mail>, dir: Registry,
                             c0: map<QueueId, seq<Item>>, m0: map<(string, nat), seq<Mail>>,
                             c: map<QueueId, seq<Item>>, m: map<(string, nat), seq<Mail>>, k: QueueId) {
    || Unmoved(c0, m0, c, m, k)
    || (&& Owned(dir, k) && ItemsIn(c, k) == []
        && StoredIn(m, k.name, k.device) == StoredIn(m0, k.name, k.device) + Mails(codec, ItemsIn(c0, k)))
  }

  ghost predicate AllMovedWhole(codec: Codec<Mail>, dir: Registry,
                                c0: map<QueueId, seq<Item>>, m0: map<(string, nat), seq<Mail>>,
                                c: map<QueueId, seq<Item>>, m: map<(string, nat), seq<Mail>>) {
    forall k: QueueId {:trigger MovedWhole(codec, dir, c0, m0, c, m, k)} ::
      k.kind == UserQueue ==> MovedWhole(codec, dir, c0, m0, c, m, k)
  }

  lemma OneMoreQueue(codec: Codec<Mail>, dir: Registry, start: Store, s: Store, t: Store, q: QueueId)
    requires q.kind == UserQueue && Owned(dir, q) && QueueMoved(codec, s, t, q)
    requires AllMovedWhole(codec, dir, start.contents, start.mail, s.contents, s.mail)
    ensures AllMovedWhole(codec, dir, start.contents, start.mail, t.contents, t.mail)
  {
    forall k: QueueId | k.kind == UserQueue
      ensures MovedWhole(codec, dir, start.contents, start.mail, t.contents, t.mail, k)
    {
      assert MovedWhole(codec, dir, start.contents, start.mail, s.contents, s.mail, k);
      if k != q {
        assert (k.name, k.device) != (q.name, q.device);
      } else if !Unmoved(start.contents, start.mail, s.contents, s.mail, k) {
        assert Mails(codec, ItemsIn(s.contents, q)) == [];
      }
    }
  }

  /** Every non-empty queue's key leads back to it. */
  ghost predicate AllLeadHome(dir: Registry, contents: map<QueueId, seq<Item>>) {
    forall k: QueueId {:trigger LeadsHome(dir, k)} :: k.kind == UserQueue && ItemsIn(contents, k) != [] ==>
      LeadsHome(dir, k)
  }

  /** The index lists exactly the non-empty queues, no later than their messages, and all keys lead home. */
  ghost predicate InStep(dir: Registry, index: seq<Scored>, contents: map<QueueId, seq<Item>>) {
    IndexAgrees(index, contents, UserQueue, iset{}) && AllLeadHome(dir, contents)
  }

  method MoveQueue(redis: Redis, db: Database, codec: Codec<Mail>, q: QueueId)
    requires redis.Valid() && AllMail(codec, redis.contents) && q.kind == UserQueue && (q.name, q.device) in db.devices
    modifies redis, db
    ensures redis.Valid() && AllMail(codec, redis.contents)
    ensures QueueMoved(codec, old(StoreOf(redis, db)), StoreOf(redis, db), q)
  {
    ghost var trace := PersistQueue(redis, db, codec, q.name, q.device);
  }

  /** The queues of one poll, in order. The first key that leads nowhere stops the run, with
      the rest of the poll off the index. */
  method PersistKeys(redis: Redis, db: Database, codec: Codec<Mail>, dir: Registry, keys: seq<string>,
                     ghost start: Store)
    returns (ok: bool)
    requires redis.Valid() && AllMail(codec, start.contents) && Rows(dir, db.devices)
    requires AllMovedWhole(codec, dir, start.contents, start.mail, redis.contents, db.mail)
    modifies redis, db
    ensures redis.Valid()
    ensures AllMovedWhole(codec, dir, start.contents, start.mail, redis.contents, db.mail)
    ensures ok <==> Leading(dir, keys) == |keys|
    ensures KeysDone(dir, keys, Leading(dir, keys), old(StoreOf(redis, db)), StoreOf(redis, db))
  {
    ghost var moments := [StoreOf(redis, db)];
    StillMail(codec, dir, start.contents, start.mail, redis.contents, db.mail);
    for n := 0 to |keys|
      invariant redis.Valid() && AllMail(codec, redis.contents)
      invariant KeysMove(codec, dir, keys, n, moments) && Last(moments) == StoreOf(redis, db)
      invariant moments[0] == old(StoreOf(redis, db))
    {
      var found := Resolve(dir, keys[n]);
      if found.None? {
        KeysMoved(codec, dir, keys, n, start, moments);
        return false;
      }
      RowOf(dir, db.devices, keys[n]);
      MoveQueue(redis, db, codec, found.value);
      moments := moments + [StoreOf(redis, db)];
    }
    KeysMoved(codec, dir, keys, |keys|, start, moments);
    ok := true;
  }

  function Last(moments: seq<Store>): Store
    requires moments != []
  {
    moments[|moments| - 1]
  }

  /** The first n keys lead to queues, and from each moment to the next one of these moves. */
  ghost predicate KeysMove(codec: Codec<Mail>, dir: Registry, keys: seq<string>, n: nat, moments: seq<Store>) {
    && n <= |keys| && |moments| == n + 1
    && forall i :: 0 <= i < n ==>
         Resolve(dir, keys[i]).Some? && QueueMoved(codec, moments[i], moments[i + 1], Resolve(dir, keys[i]).value)
  }

  lemma {:induction false} KeysMoved(codec: Codec<Mail>, dir: Registry, keys: seq<string>, n: nat, start: Store,
                                     moments: seq<Store>)
    requires KeysMove(codec, dir, keys, n, moments) && (n < |keys| ==> Resolve(dir, keys[n]).None?)
    requires AllMovedWhole(codec, dir, start.contents, start.mail, moments[0].contents, moments[0].mail)
    ensures Leading(dir, keys) == n && KeysDone(dir, keys, n, moments[0], Last(moments))
    ensures AllMovedWhole(codec, dir, start.contents, start.mail, Last(moments).contents, Last(moments).mail)
  {
    LeadingIs(dir, keys, n);
    MovesSoFar(codec, dir, keys, n, start, moments, n);
  }

  lemma {:induction false} MovesSoFar(codec: Codec<Mail>, dir: Registry, keys: seq<string>, n: nat, start: Store,
                                      moments: seq<Store>, i: nat)
    requires KeysMove(codec, dir, keys, n, moments) && i <= n
    requires AllMovedWhole(codec, dir, start.contents, start.mail, moments[0].contents, moments[0].mail)
    ensures KeysAt(codec, dir, keys, i, start, moments[0], moments[i])
  {
    if i == 0 {
      KeysStart(dir, keys, moments[0]);
    } else {
      MovesSoFar(codec, dir, keys, n, start, moments, i - 1);
      var q := MoveAt(codec, dir, keys, n, moments, i - 1);
      KeysStep(codec, dir, keys, i - 1, start, moments[0], moments[i - 1], moments[i], q);
    }
  }

  lemma MoveAt(codec: Codec<Mail>, dir: Registry, keys: seq<string>, n: nat, moments: seq<Store>, i: nat)
    returns (q: QueueId)
    requires KeysMove(codec, dir, keys, n, moments) && i < n
    ensures Resolve(dir, keys[i]) == Some(q) && q.kind == UserQueue && Owned(dir, q)
    ensures QueueMoved(codec, moments[i], moments[i + 1], q)
  {
    q := Resolve(dir, keys[i]).value;
    LeadsToOwned(dir, keys[i]);
  }

  lemma LeadsToOwned(dir: Registry, key: string)
    requires Resolve(dir, key).Some?
    ensures var q := Resolve(dir, key).value; q.kind == UserQueue && Owned(dir, q)
  {
    var n := ParseKey(key).value.0;
    var q := Resolve(dir, key).value;
    assert n in dir && dir[n].aci == q.name && q.device in dir[n].devices;
  }

  /** A key that leads somewhere leads to the queue of a device with a row. */
  lemma RowOf(dir: Registry, devices: set<(string, nat)>, key: string)
    requires Rows(dir, devices) && Resolve(dir, key).Some?
    ensures var q := Resolve(dir, key).value; q.kind == UserQueue && (q.name, q.device) in devices
  {
    var n := ParseKey(key).value.0;
    var q := Resolve(dir, key).value;
    assert n in dir && dir[n].aci == q.name && q.device in dir[n].devices;
  }

  ghost predicate KeysDone(dir: Registry, keys: seq<string>, n: nat, s: Store, t: Store)
    requires n <= |keys|
  {
    && Drained(dir, keys[..n], s.contents, t.contents) && |t.index| <= |s.index|
    && (ListedHold(s.index, s.contents) ==>
          t.index == Keep(s.index, Texts(dir, keys[..n])) && ListedHold(t.index, t.contents))
  }

  ghost predicate KeysAt(codec: Codec<Mail>, dir: Registry, keys: seq<string>, n: nat, start: Store, s: Store,
                         t: Store)
    requires n <= |keys|
  {
    KeysDone(dir, keys, n, s, t) && AllMovedWhole(codec, dir, start.contents, start.mail, t.contents, t.mail)
  }

  lemma KeysStart(dir: Registry, keys: seq<string>, s: Store)
    ensures KeysDone(dir, keys, 0, s, s)
  {
    assert keys[..0] == [];
    KeepAll(s.index, Texts(dir, []));
  }

  lemma KeysStep(codec: Codec<Mail>, dir: Registry, keys: seq<string>, n: nat, start: Store, s: Store, t: Store,
                 t': Store, q: QueueId)
    requires n < |keys| && Resolve(dir, keys[n]) == Some(q) && q.kind == UserQueue && Owned(dir, q)
    requires KeysAt(codec, dir, keys, n, start, s, t) && QueueMoved(codec, t, t', q)
    ensures KeysAt(codec, dir, keys, n + 1, start, s, t')
  {
    KeyDone(dir, keys, n, s.contents, t.contents, q, t'.contents);
    if ListedHold(s.index, s.contents) { KeyOff(dir, keys, n, s.index, t.index, t.contents, q, t'.contents); }
    OneMoreQueue(codec, dir, start, t, t', q);
  }

  /** A poll that finds keys leaves fewer entries listed. */
  ghost predicate Fewer(index: seq<Scored>, keys: seq<string>, before: seq<Scored>) {
    |index| + (if keys == [] then 0 else 1) <= |before|
  }

  lemma FewerYet(a: seq<Scored>, b: seq<Scored>, keys: seq<string>, c: seq<Scored>)
    requires Fewer(b, [], a) && Fewer(c, keys, b)
    ensures Fewer(c, keys, a)
  {
  }

  lemma PollShrinks(index: seq<Scored>, limit: nat)
    ensures var keys := PolledKeys(index, limit);
      |Keep(index, KeySet(keys))| + (if keys == [] then 0 else 1) <= |index|
  {
    var keys, r := PolledKeys(index, limit), ZRangeByScore(index, 0, limit);
    if keys != [] {
      RangeMembers(index, 0, limit);
      assert r[0] in r && r[0] in index;
      assert r[0].member == keys[0] && keys[0] in KeySet(keys);
      KeepShrinks(index, KeySet(keys), r[0]);
    }
  }

  lemma {:induction false} KeepShrinks(z: seq<Scored>, off: iset<string>, e: Scored)
    requires e in z && e.member in off
    ensures |Keep(z, off)| < |z|
  {
    if z[0] != e { KeepShrinks(z[1..], off, e); }
  }

  /** The run so far, at a moment after a poll: before it the run had dealt with the first n
      entries of its index. */
  ghost predicate AtPoll(dir: Registry, index0: seq<Scored>, c0: map<QueueId, seq<Item>>, before: seq<Scored>,
                         index: seq<Scored>, c: map<QueueId, seq<Item>>, keys: seq<string>, limit: nat, n: nat) {
    && Reached(dir, index0, c0, before, c, limit, n)
    && keys == PolledKeys(before, limit) && index == Keep(before, KeySet(keys)) && ListedHold(index, c)
  }

  ghost predicate Sound(dir: Registry, index0: seq<Scored>, c0: map<QueueId, seq<Item>>) {
    Orderly(index0, c0) && Settled(dir, c0)
  }

  lemma StoreIsOrderly(indexes: map<Kind, seq<Scored>>, contents: map<QueueId, seq<Item>>)
    requires AllListedRight(indexes, contents)
    ensures Orderly(IndexIn(indexes, UserQueue), contents)
  {
    var index := IndexIn(indexes, UserQueue);
    assert SortedAt(indexes, UserQueue);
    SortedByScore(index);
    forall k: QueueId | k.kind == UserQueue && HasMember(index, KeyText(k)) ensures ItemsIn(contents, k) != [] {
      assert ListedRight(indexes, contents, k);
    }
  }

  /** Where the run stands after a poll, whatever it started from. */
  ghost predicate Running(codec: Codec<Mail>, dir: Registry, start: Store, before: seq<Scored>, now: Store,
                          keys: seq<string>, limit: nat, n: nat) {
    && AllMovedWhole(codec, dir, start.contents, start.mail, now.contents, now.mail)
    && (Sound(dir, start.index, start.contents) ==>
          AtPoll(dir, start.index, start.contents, before, now.index, now.contents, keys, limit, n))
  }

  /** Where it stands when all keys of the poll have been dealt with. */
  ghost predicate Dealt(codec: Codec<Mail>, dir: Registry, start: Store, now: Store, limit: nat, n: nat) {
    && AllMovedWhole(codec, dir, start.contents, start.mail, now.contents, now.mail)
    && (Sound(dir, start.index, start.contents) ==>
          Reached(dir, start.index, start.contents, now.index, now.contents, limit, n))
  }

  /** What a run comes to. */
  ghost predicate Finished(codec: Codec<Mail>, dir: Registry, start: Store, now: Store, limit: nat, ok: bool) {
    && AllMovedWhole(codec, dir, start.contents, start.mail, now.contents, now.mail)
    && (Sound(dir, start.index, start.contents) ==>
          Persisted(dir, start.index, start.contents, now.index, now.contents, limit, ok))
  }

  lemma NothingDealt(codec: Codec<Mail>, dir: Registry, start: Store)
    ensures Dealt(codec, dir, start, start, 0, 0)
  {
    NothingMoved(codec, dir, start.contents, start.mail);
    ReachedStart(dir, start.index, start.contents, 0);
  }

  /** The next poll after one dealt with in full. */
  lemma NextPoll(codec: Codec<Mail>, dir: Registry, start: Store, now: Store, limit: nat, n: nat,
                 index: seq<Scored>, keys: seq<string>, limit': nat)
    requires Dealt(codec, dir, start, now, limit, n) && limit <= limit'
    requires keys == PolledKeys(now.index, limit') && index == Keep(now.index, KeySet(keys))
    ensures Running(codec, dir, start, now.index, now.(index := index), keys, limit', n)
  {
    if Sound(dir, start.index, start.contents) {
      ReachedListed(dir, start.index, start.contents, now.index, now.contents, limit, n);
      PolledHold(now.index, now.contents, KeySet(keys));
      ReachedLater(dir, start.index, start.contents, now.index, now.contents, limit, limit', n);
    }
  }

  lemma DealtWith(codec: Codec<Mail>, dir: Registry, start: Store, before: seq<Scored>, polled: Store,
                  keys: seq<string>, limit: nat, n: nat, now: Store) returns (m: nat)
    requires Running(codec, dir, start, before, polled, keys, limit, n)
    requires AllMovedWhole(codec, dir, start.contents, start.mail, now.contents, now.mail)
    requires Leading(dir, keys) == |keys| && KeysDone(dir, keys, |keys|, polled, now)
    ensures Dealt(codec, dir, start, now, limit, m)
  {
    m := n;
    if Sound(dir, start.index, start.contents) {
      AllOrFirst(dir, keys);
      m := RoundReaches(dir, start.index, start.contents, before, polled.contents, limit, n, now.contents);
    }
  }

  lemma FailedRun(codec: Codec<Mail>, dir: Registry, start: Store, before: seq<Scored>, polled: Store,
                  keys: seq<string>, limit: nat, n: nat, now: Store)
    requires Running(codec, dir, start, before, polled, keys, limit, n)
    requires AllMovedWhole(codec, dir, start.contents, start.mail, now.contents, now.mail)
    requires Leading(dir, keys) < |keys| && KeysDone(dir, keys, Leading(dir, keys), polled, now)
    ensures Finished(codec, dir, start, now, limit, false)
  {
    if Sound(dir, start.index, start.contents) {
      RunFails(dir, start.index, start.contents, before, polled.contents, limit, n, now.contents);
    }
  }

  /** The keys of one poll. */
  method PersistPoll(redis: Redis, db: Database, codec: Codec<Mail>, dir: Registry, keys: seq<string>,
                     ghost start: Store, ghost before: seq<Scored>, ghost limit: nat, ghost n: nat)
    returns (ok: bool, ghost n': nat)
    requires redis.Valid() && AllMail(codec, start.contents) && Rows(dir, db.devices)
    requires Running(codec, dir, start, before, StoreOf(redis, db), keys, limit, n)
    modifies redis, db
    ensures redis.Valid()
    ensures ok ==> Dealt(codec, dir, start, StoreOf(redis, db), limit, n')
    ensures !ok ==> Finished(codec, dir, start, StoreOf(redis, db), limit, false)
    ensures Fewer(redis.Index(UserQueue), [], old(redis.Index(UserQueue)))
  {
    ghost var polled := StoreOf(redis, db);
    ok := PersistKeys(redis, db, codec, dir, keys, start);
    n' := n;
    if ok {
      n' := DealtWith(codec, dir, start, before, polled, keys, limit, n, StoreOf(redis, db));
    } else {
      FailedRun(codec, dir, start, before, polled, keys, limit, n, StoreOf(redis, db));
    }
  }

  /** The due queues' keys, taken off the index. */
  method Poll(redis: Redis, maxTime: nat) returns (keys: seq<string>)
    requires redis.Valid()
    modifies redis`indexes
    ensures redis.Valid()
    ensures keys == PolledKeys(old(redis.Index(UserQueue)), maxTime)
    ensures redis.Index(UserQueue) == Keep(old(redis.Index(UserQueue)), KeySet(keys))
  {
    keys := GetQueuesToPersist(redis, maxTime, QUEUE_BATCH_LIMIT);
    RemoveKeysIsKeep(old(redis.Index(UserQueue)), keys);
  }

  /** One round: the clock, and a poll for the queues that are due by it. A fruitful poll
      leaves fewer queues listed. */
  method NextRound(redis: Redis, ghost db: Database, clock: Clock, ghost codec: Codec<Mail>, ghost dir: Registry,
                   ghost start: Store, ghost limit: nat, ghost n: nat)
    returns (keys: seq<string>, t: nat)
    requires redis.Valid() && clock.now >= PERSIST_DELAY && limit <= clock.now - PERSIST_DELAY
    requires Dealt(codec, dir, start, StoreOf(redis, db), limit, n)
    modifies redis`indexes, clock
    ensures redis.Valid() && t == clock.now >= old(clock.now)
    ensures Running(codec, dir, start, old(redis.Index(UserQueue)), StoreOf(redis, db), keys, t - PERSIST_DELAY, n)
    ensures Fewer(redis.Index(UserQueue), keys, old(redis.Index(UserQueue)))
  {
    ghost var now := StoreOf(redis, db);
    t := clock.Read();
    keys := Poll(redis, t - PERSIST_DELAY);
    PollShrinks(now.index, t - PERSIST_DELAY);
    NextPoll(codec, dir, start, now, limit, n, redis.Index(UserQueue), keys, t - PERSIST_DELAY);
    assert StoreOf(redis, db) == now.(index := redis.Index(UserQueue));
  }

  /** The keys of one poll, and the next poll if all of them lead somewhere. */
  method PersistRound(redis: Redis, db: Database, codec: Codec<Mail>, clock: Clock, dir: Registry, keys: seq<string>,
                      t: nat,
                      ghost start: Store, ghost before: seq<Scored>, ghost n: nat)
    returns (ok: bool, keys': seq<string>, t': nat, ghost before': seq<Scored>, ghost n': nat)
    requires redis.Valid() && AllMail(codec, start.contents) && Rows(dir, db.devices) && t == clock.now >= PERSIST_DELAY
    requires Running(codec, dir, start, before, StoreOf(redis, db), keys, t - PERSIST_DELAY, n)
    modifies redis, db, clock
    ensures redis.Valid() && t' == clock.now >= t
    ensures ok ==> Running(codec, dir, start, before', StoreOf(redis, db), keys', t' - PERSIST_DELAY, n')
    ensures !ok ==> keys' == [] && Finished(codec, dir, start, StoreOf(redis, db), t' - PERSIST_DELAY, false)
    ensures Fewer(redis.Index(UserQueue), keys', old(redis.Index(UserQueue)))
  {
    ghost var polled := redis.Index(UserQueue);
    ok, n' := PersistPoll(redis, db, codec, dir, keys, start, before, t - PERSIST_DELAY, n);
    keys', t', before' := [], t, redis.Index(UserQueue);
    if !ok {
      return;
    }
    keys', t' := NextRound(redis, db, clock, codec, dir, start, t - PERSIST_DELAY, n');
    FewerYet(polled, before', keys', redis.Index(UserQueue));
  }

  /** Polls until no queue is due, or a key leads nowhere. */
  method PersistPolled(redis: Redis, db: Database, codec: Codec<Mail>, clock: Clock, dir: Registry, ghost start: Store)
    returns (ok: bool, t: nat)
    requires redis.Valid() && AllMail(codec, start.contents) && clock.now >= PERSIST_DELAY && Rows(dir, db.devices)
    requires start == StoreOf(redis, db)
    modifies redis, db, clock
    ensures redis.Valid() && t == clock.now >= old(clock.now)
    ensures Finished(codec, dir, start, StoreOf(redis, db), t - PERSIST_DELAY, ok)
  {
    ghost var before, n := start.index, 0;
    var keys;
    ok := true;
    NothingDealt(codec, dir, start);
    keys, t := NextRound(redis, db, clock, codec, dir, start, 0, 0);
    while ok && keys != []
      invariant redis.Valid() && t == clock.now >= PERSIST_DELAY && t >= old(clock.now)
      invariant ok ==> Running(codec, dir, start, before, StoreOf(redis, db), keys, t - PERSIST_DELAY, n)
      invariant !ok ==> Finished(codec, dir, start, StoreOf(redis, db), t - PERSIST_DELAY, ok)
      decreases |redis.Index(UserQueue)| + if keys == [] then 0 else 1
    {
      ok, keys, t, before, n := PersistRound(redis, db, codec, clock, dir, keys, t, start, before, n);
    }
    if ok { LastPoll(codec, dir, start, before, StoreOf(redis, db), keys, t - PERSIST_DELAY, n); }
  }

  lemma LastPoll(codec: Codec<Mail>, dir: Registry, start: Store, before: seq<Scored>, now: Store, keys: seq<string>,
                 limit: nat, n: nat)
    requires keys == [] && Running(codec, dir, start, before, now, keys, limit, n)
    ensures Finished(codec, dir, start, now, limit, true)
  {
    if Sound(dir, start.index, start.contents) {
      KeepAll(before, KeySet([]));
      RunEnds(dir, start.index, start.contents, before, now.contents, limit, n);
    }
  }

  /** Queues that stay or empty hold envelopes as before. */
  lemma StillMail(codec: Codec<Mail>, dir: Registry, c0: map<QueueId, seq<Item>>, m0: map<(string, nat), seq<Mail>>,
                  c: map<QueueId, seq<Item>>, m: map<(string, nat), seq<Mail>>)
    requires AllMail(codec, c0) && AllMovedWhole(codec, dir, c0, m0, c, m)
    ensures AllMail(codec, c)
  {
    forall k: QueueId | k.kind == UserQueue ensures MailAt(codec, c, k) {
      assert MovedWhole(codec, dir, c0, m0, c, m, k) && MailAt(codec, c0, k);
    }
  }

  lemma NothingMoved(codec: Codec<Mail>, dir: Registry, c0: map<QueueId, seq<Item>>, m0: map<(string, nat), seq<Mail>>)
    ensures AllMovedWhole(codec, dir, c0, m0, c0, m0)
  {
  }

  /** One run of the persister, from any store, so also from one a failed run has left.
      Whatever happens, every queue either stays as it was or is moved as a whole, and only
      queues of known devices move. For directories in which every account is also found by
      its own name, the due keys are dealt with in order up to the first that leads nowhere.
      From an index in step with the queues, if all keys lead home, the run succeeds, the
      index is in step again, and no message as old as the limit is cached. */
  method Persist(redis: Redis, db: Database, codec: Codec<Mail>, clock: Clock, dir: Registry)
    returns (ok: bool, t: nat)
    requires redis.Valid() && AllMail(codec, redis.contents) && clock.now >= PERSIST_DELAY
    requires Rows(dir, db.devices)
    modifies redis, db, clock
    ensures redis.Valid() && AllMail(codec, redis.contents)
    ensures t == clock.now >= old(clock.now)
    ensures AllMovedWhole(codec, dir, old(redis.contents), old(db.mail), redis.contents, db.mail)
    ensures Keyed(dir) || Settled(dir, old(redis.contents)) ==>
      Persisted(dir, old(redis.Index(UserQueue)), old(redis.contents), redis.Index(UserQueue), redis.contents,
        t - 600, ok)
    ensures old(InStep(dir, redis.Index(UserQueue), redis.contents)) ==>
      && ok
      && InStep(dir, redis.Index(UserQueue), redis.contents)
      && AllYounger(redis.contents, t - 600)
  {
    ghost var start := StoreOf(redis, db);
    StoreIsOrderly(redis.indexes, redis.contents);
    if Keyed(dir) { KeyedIsSettled(dir, redis.contents); }
    ok, t := PersistPolled(redis, db, codec, clock, dir, start);
    StillMail(codec, dir, start.contents, start.mail, redis.contents, db.mail);
    if InStep(dir, start.index, start.contents) {
      StaysInStep(dir, start.index, start.contents, redis.Index(UserQueue), redis.contents, t - PERSIST_DELAY, ok);
    }
  }

  lemma InStepIsSound(dir: Registry, index0: seq<Scored>, c0: map<QueueId, seq<Item>>)
    requires InStep(dir, index0, c0)
    ensures Sound(dir, index0, c0)
  {
    forall key: string, k: QueueId | Resolve(dir, key) == Some(k) && ItemsIn(c0, k) != [] ensures LeadsHome(dir, k) {
      assert k.kind == UserQueue;
    }
    forall k: QueueId | k.kind == UserQueue && HasMember(index0, KeyText(k)) ensures ItemsIn(c0, k) != [] {
      assert ListsAt(index0, c0, iset{}, k);
    }
  }

  lemma StaysInStep(dir: Registry, index0: seq<Scored>, c0: map<QueueId, seq<Item>>, index: seq<Scored>,
                    c: map<QueueId, seq<Item>>, limit: nat, ok: bool)
    requires InStep(dir, index0, c0)
    requires Sound(dir, index0, c0) ==> Persisted(dir, index0, c0, index, c, limit, ok)
    ensures ok && InStep(dir, index, c) && AllYounger(c, limit)
  {
    InStepIsSound(dir, index0, c0);
    forall key | key in DueKeys(index0, limit) ensures HomeKey(dir, key) {
      var k := DueQueue(index0, c0, limit, key);
      assert LeadsHome(dir, k);
    }
    HomeRunInStep(dir, index0, c0, index, c, limit, ok);
    forall k: QueueId | k.kind == UserQueue && ItemsIn(c, k) != [] ensures LeadsHome(dir, k) {
      assert ItemsIn(c, k) == ItemsIn(c0, k);
    }
  }

  /** The condition is needed, over every directory in which an account found by any name is
      also found by its own: after a run from c0 to c, an old message of a queue whose plainly
      written key leads elsewhere is still cached. */
  lemma StrayQueueStays(codec: Codec<Mail>, dir: Registry, c0: map<QueueId, seq<Item>>,
                        m0: map<(string, nat), seq<Mail>>,
                        c: map<QueueId, seq<Item>>, m: map<(string, nat), seq<Mail>>, limit: nat, k: QueueId, i: nat)
    requires AllMovedWhole(codec, dir, c0, m0, c, m)
    requires forall n {:trigger n in dir} :: n in dir ==> dir[n].aci in dir && dir[dir[n].aci] == dir[n]
    requires k.kind == UserQueue && PlainName(k.name) && !LeadsHome(dir, k)
    requires i < |ItemsIn(c0, k)| && ItemsIn(c0, k)[i].insertedAt <= limit
    ensures !AllYounger(c, limit)
  {
    ResolvesItself(dir, k.name, k.device);
    assert !Owned(dir, k);
    assert MovedWhole(codec, dir, c0, m0, c, m, k);
    assert ItemsIn(c, k)[i].insertedAt <= limit;
  }

  /** A whole run that fails: a message is inserted for an account that is gone and one for an
      account that is there, and the persister runs once both are due. It fails, and the
      sound queue stays cached but is off the index. */
  method FailingRun(codec: Codec<Mail>, clock: Clock, gone: string, known: string)
    returns (redis: Redis, db: Database, ok: bool)
    requires codec.RoundTrips() && gone != known && PlainName(gone) && PlainName(known)
    requires clock.now > PERSIST_DELAY
    modifies clock
    ensures fresh(redis) && fresh(db) && redis.Valid() && AllMail(codec, redis.contents)
    ensures clock.now >= old(clock.now) && !ok && !AllYounger(redis.contents, clock.now - PERSIST_DELAY)
    ensures Stranded(redis.Index(UserQueue), redis.Items(MailQueue(known, 1)), KeyText(MailQueue(known, 1)))
    ensures db.Stored(known, 1) == []
  {
    redis, db := TwoQueues(codec, gone, known);
    OneAccount(known, db.devices);
    AnyRunFails(gone, known, map[known := Account(known, [1])], redis.Index(UserQueue), redis.contents);
    ok := PersistDoomed(redis, db, codec, clock, map[known := Account(known, [1])], MailQueue(known, 1));
  }

  /** Whatever a run comes to that finds the queues of k and index0 due, it strands queue k. */
  ghost predicate Doomed(dir: Registry, index0: seq<Scored>, c0: map<QueueId, seq<Item>>, k: QueueId) {
    forall index, c, limit: nat, ok {:trigger Persisted(dir, index0, c0, index, c, limit, ok)} ::
      limit >= 1 && Persisted(dir, index0, c0, index, c, limit, ok) ==>
        !ok && !AllYounger(c, limit) && Stranded(index, ItemsIn(c, k), KeyText(k))
  }

  /** A run for directories in which every account is also found by its own name. */
  method PersistKeyed(redis: Redis, db: Database, codec: Codec<Mail>, clock: Clock, dir: Registry)
    returns (ok: bool, t: nat)
    requires redis.Valid() && AllMail(codec, redis.contents) && clock.now >= PERSIST_DELAY
    requires Keyed(dir) && Rows(dir, db.devices)
    modifies redis, db, clock
    ensures redis.Valid() && AllMail(codec, redis.contents) && t == clock.now >= old(clock.now)
    ensures Orderly(old(redis.Index(UserQueue)), old(redis.contents))
    ensures AllMovedWhole(codec, dir, old(redis.contents), old(db.mail), redis.contents, db.mail)
    ensures Persisted(dir, old(redis.Index(UserQueue)), old(redis.contents), redis.Index(UserQueue), redis.contents,
      t - PERSIST_DELAY, ok)
  {
    StoreIsOrderly(redis.indexes, redis.contents);
    ok, t := Persist(redis, db, codec, clock, dir);
  }

  method PersistDoomed(redis: Redis, db: Database, codec: Codec<Mail>, clock: Clock, dir: Registry, ghost k: QueueId)
    returns (ok: bool)
    requires redis.Valid() && AllMail(codec, redis.contents) && clock.now > PERSIST_DELAY && k.kind == UserQueue
    requires Keyed(dir) && Rows(dir, db.devices) && Doomed(dir, redis.Index(UserQueue), redis.contents, k)
    modifies redis, db, clock
    ensures redis.Valid() && AllMail(codec, redis.contents)
    ensures clock.now >= old(clock.now) && !ok && !AllYounger(redis.contents, clock.now - PERSIST_DELAY)
    ensures Stranded(redis.Index(UserQueue), redis.Items(k), KeyText(k))
    ensures db.Stored(k.name, k.device) == old(db.Stored(k.name, k.device))
  {
    var t;
    ok, t := PersistKeyed(redis, db, codec, clock, dir);
    StaysOut(codec, dir, old(redis.contents), old(db.mail), redis.contents, db.mail, k);
  }

  lemma OneAccount(known: string, devices: set<(string, nat)>)
    requires PlainName(known) && (known, 1) in devices
    ensures var dir := map[known := Account(known, [1])]; Keyed(dir) && Rows(dir, devices)
  {
  }

  lemma AnyRunFails(gone: string, known: string, dir: Registry, index0: seq<Scored>, c0: map<QueueId, seq<Item>>)
    requires TwoWaiting(gone, known, dir, index0, c0) && Orderly(index0, c0)
    requires ItemsIn(c0, MailQueue(known, 1))[0].guid == "y"
    ensures Doomed(dir, index0, c0, MailQueue(known, 1))
  {
    forall index, c, limit: nat, ok | limit >= 1 && Persisted(dir, index0, c0, index, c, limit, ok)
      ensures !ok && !AllYounger(c, limit)
      ensures Stranded(index, ItemsIn(c, MailQueue(known, 1)), KeyText(MailQueue(known, 1)))
    {
      OtherStranded(gone, known, dir, index0, c0, index, c, limit, ok);
    }
  }

  /** What is still cached has not been stored. */
  lemma StaysOut(codec: Codec<Mail>, dir: Registry, c0: map<QueueId, seq<Item>>, m0: map<(string, nat), seq<Mail>>,
                 c: map<QueueId, seq<Item>>, m: map<(string, nat), seq<Mail>>, k: QueueId)
    requires AllMovedWhole(codec, dir, c0, m0, c, m) && k.kind == UserQueue && ItemsIn(c, k) != []
    ensures StoredIn(m, k.name, k.device) == StoredIn(m0, k.name, k.device)
  {
    assert MovedWhole(codec, dir, c0, m0, c, m, k);
  }

  /** One message inserted at time 1 is cached, and the index does not list its queue. */
  ghost predicate Stranded(index: seq<Scored>, items: seq<Item>, key: string) {
    |items| == 1 && items[0].guid == "y" && items[0].insertedAt == 1 && !HasMember(index, key)
  }

  /** One more message, and the index claims that all messages of the queue are new. */
  method OneStrayStrandsAnother(codec: Codec<Mail>, clock: Clock, gone: string, known: string, later: nat)
    returns (redis: Redis, db: Database, ok: bool)
    requires codec.RoundTrips() && gone != known && PlainName(gone) && PlainName(known)
    requires clock.now > PERSIST_DELAY && later > 1
    modifies clock
    ensures redis.Valid() && !ok
    ensures var b := MailQueue(known, 1);
      && |redis.Items(b)| == 2 && redis.Items(b)[0].insertedAt == 1 && redis.Items(b)[1].insertedAt == later
      && HasMember(redis.Index(UserQueue), KeyText(b))
      && forall e :: e in redis.Index(UserQueue) && e.member == KeyText(b) ==> e.score == later
  {
    redis, db, ok := FailingRun(codec, clock, gone, known);
    ListedAnew(redis.Index(UserQueue), later, KeyText(MailQueue(known, 1)));
    var id := Insert(redis, codec, known, 1, [], "z", later);
  }

  method TwoQueues(codec: Codec<Mail>, gone: string, known: string) returns (redis: Redis, db: Database)
    requires codec.RoundTrips() && gone != known && PlainName(gone) && PlainName(known)
    ensures fresh(redis) && fresh(db) && redis.Valid() && AllMail(codec, redis.contents)
    ensures TwoWaiting(gone, known, map[known := Account(known, [1])], redis.Index(UserQueue), redis.contents)
    ensures db.devices == {(known, 1)} && db.mail == map[] && Orderly(redis.Index(UserQueue), redis.contents)
    ensures redis.Items(MailQueue(known, 1))[0].guid == "y"
  {
    redis := new Redis();
    db := new Database({(known, 1)});
    var id := Insert(redis, codec, gone, 1, [], "x", 0);
    id := Insert(redis, codec, known, 1, [], "y", 1);
    TwoInserted(gone, known, redis.indexes);
    StoreIsOrderly(redis.indexes, redis.contents);
  }
}
