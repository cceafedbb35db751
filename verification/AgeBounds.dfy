/** What a run of the persister means for the age of cached messages, exactly, and what a run
    that fails leaves behind. */
module AgeBounds {
  import opened Bincode
  import opened Limits
  import opened SortedSet
  import opened Entries
  import opened QueueKeys
  import opened RedisQueues
  import opened Indexes
  import opened MessageCache
  import opened DueQueues

  // ---- What this means for the age of messages ----

  /** No cached message was inserted at or before the limit. */
  ghost predicate AllYounger(contents: map<QueueId, seq<Item>>, limit: nat) {
    forall k: QueueId, i :: k.kind == UserQueue && 0 <= i < |ItemsIn(contents, k)| ==>
      ItemsIn(contents, k)[i].insertedAt > limit
  }

  /** The queue holds a message inserted at or before the limit. */
  ghost predicate HoldsOld(contents: map<QueueId, seq<Item>>, limit: nat, k: QueueId) {
    k.kind == UserQueue && exists i :: 0 <= i < |ItemsIn(contents, k)| && ItemsIn(contents, k)[i].insertedAt <= limit
  }

  /** A queue with an old message is due. */
  lemma OldIsDue(index0: seq<Scored>, c0: map<QueueId, seq<Item>>, limit: nat, k: QueueId)
    requires IndexAgrees(index0, c0, UserQueue, iset{}) && HoldsOld(c0, limit, k)
    ensures KeyText(k) in DueKeys(index0, limit)
  {
    assert ListsAt(index0, c0, iset{}, k) && AgesAt(index0, c0, k);
    var j :| 0 <= j < |index0| && index0[j].member == KeyText(k);
    var r := ZRangeByScore(index0, 0, limit);
    RangeMembers(index0, 0, limit);
    assert index0[j] in index0 && index0[j] in r;
    var i :| 0 <= i < |r| && r[i] == index0[j];
    assert Members(r)[i] == KeyText(k);
  }

  /** The age bound, exactly: after a run no cached message is as old as the limit if and
      only if every queue that held such a message is led to by one of the due keys before
      the first that leads nowhere. */
  lemma AgeBoundExactly(dir: Registry, index0: seq<Scored>, c0: map<QueueId, seq<Item>>, index: seq<Scored>,
                        c: map<QueueId, seq<Item>>, limit: nat, ok: bool)
    requires Persisted(dir, index0, c0, index, c, limit, ok)
    ensures var due := DueKeys(index0, limit);
      AllYounger(c, limit) <==> forall k :: HoldsOld(c0, limit, k) ==> Target(dir, due[..Leading(dir, due)], k)
  {
    var due := DueKeys(index0, limit);
    var led := due[..Leading(dir, due)];
    if AllYounger(c, limit) {
      forall k | HoldsOld(c0, limit, k) ensures Target(dir, led, k) {
        var i :| 0 <= i < |ItemsIn(c0, k)| && ItemsIn(c0, k)[i].insertedAt <= limit;
        assert ItemsIn(c, k) == if Target(dir, led, k) then [] else ItemsIn(c0, k);
      }
    }
    if forall k :: HoldsOld(c0, limit, k) ==> Target(dir, led, k) {
      forall k: QueueId, i | k.kind == UserQueue && 0 <= i < |ItemsIn(c, k)|
        ensures ItemsIn(c, k)[i].insertedAt > limit
      {
        assert ItemsIn(c, k) == if Target(dir, led, k) then [] else ItemsIn(c0, k);
        assert ItemsIn(c, k)[i].insertedAt <= limit ==> HoldsOld(c0, limit, k);
      }
    }
  }

  /** For the program's own directories: a run succeeds and leaves nothing old if and only if
      every due key leads somewhere and every queue with an old message is led to by its own
      key. */
  lemma AgeBoundOfDirectories(dir: Registry, index0: seq<Scored>, c0: map<QueueId, seq<Item>>, index: seq<Scored>,
                              c: map<QueueId, seq<Item>>, limit: nat, ok: bool)
    requires Keyed(dir) && IndexAgrees(index0, c0, UserQueue, iset{})
    requires Persisted(dir, index0, c0, index, c, limit, ok)
    ensures ok && AllYounger(c, limit) <==>
      AllResolve(dir, DueKeys(index0, limit)) && forall k :: HoldsOld(c0, limit, k) ==> LeadsHome(dir, k)
  {
    var due := DueKeys(index0, limit);
    AgeBoundExactly(dir, index0, c0, index, c, limit, ok);
    AllOrFirst(dir, due);
    if ok {
      forall k | HoldsOld(c0, limit, k) ensures Target(dir, due, k) <==> LeadsHome(dir, k) {
        OldIsDue(index0, c0, limit, k);
        if Target(dir, due, k) {
          TargetKind(dir, due, k);
          OwnedLeadsHome(dir, k);
        }
      }
    }
  }

  lemma AllOrFirst(dir: Registry, keys: seq<string>)
    ensures AllResolve(dir, keys) <==> Leading(dir, keys) == |keys|
    ensures Leading(dir, keys) == |keys| ==> keys[..Leading(dir, keys)] == keys
  {
    var p := Leading(dir, keys);
    if p < |keys| { assert keys[p] in keys; } else { LeadingResolve(dir, keys); }
  }

  /** A key found in the index that leads back to the queue it was made for. */
  ghost predicate HomeKey(dir: Registry, key: string) {
    exists k: QueueId :: k.kind == UserQueue && KeyText(k) == key && LeadsHome(dir, k)
  }

  ghost predicate AllHome(dir: Registry, keys: seq<string>) {
    forall key {:trigger HomeKey(dir, key)} :: key in keys ==> HomeKey(dir, key)
  }

  lemma HomeTargets(dir: Registry, due: seq<string>, k: QueueId)
    requires AllHome(dir, due) && k.kind == UserQueue
    ensures AllResolve(dir, due)
    ensures KeyText(k) in KeySet(due) + Texts(dir, due) <==> Target(dir, due, k)
    ensures KeyText(k) in due <==> Target(dir, due, k)
  {
    forall key | key in due ensures Resolve(dir, key).Some? { assert HomeKey(dir, key); }
    if KeyText(k) in due {
      assert HomeKey(dir, KeyText(k));
      var j: QueueId :| j.kind == UserQueue && KeyText(j) == KeyText(k) && LeadsHome(dir, j);
      KeyTextInjective(j, k);
    }
    if KeyText(k) in Texts(dir, due) {
      var j: QueueId :| j.kind == UserQueue && Target(dir, due, j) && KeyText(k) == KeyText(j);
      KeyTextInjective(j, k);
    }
    if Target(dir, due, k) {
      var key :| key in due && Resolve(dir, key) == Some(k);
      assert HomeKey(dir, key);
    }
  }

  /** If every due key leads home, the run succeeds, index and queues are in step again and
      nothing is as old as the limit. */
  lemma HomeRunInStep(dir: Registry, index0: seq<Scored>, c0: map<QueueId, seq<Item>>, index: seq<Scored>,
                      c: map<QueueId, seq<Item>>, limit: nat, ok: bool)
    requires IndexAgrees(index0, c0, UserQueue, iset{}) && AllHome(dir, DueKeys(index0, limit))
    requires Persisted(dir, index0, c0, index, c, limit, ok)
    ensures ok && IndexAgrees(index, c, UserQueue, iset{}) && AllYounger(c, limit)
  {
    var due := DueKeys(index0, limit);
    HomeTargets(dir, due, MailQueue("", 0));
    AllOrFirst(dir, due);
    AgeBoundExactly(dir, index0, c0, index, c, limit, ok);
    forall k | HoldsOld(c0, limit, k) ensures Target(dir, due, k) {
      OldIsDue(index0, c0, limit, k);
      HomeTargets(dir, due, k);
    }
    KeepByScore(index0, KeySet(due) + Texts(dir, due));
    KeepMembers(index0, KeySet(due) + Texts(dir, due));
    forall k: QueueId | k.kind == UserQueue ensures ListsAt(index, c, iset{}, k) && AgesAt(index, c, k) {
      HomeQueue(dir, index0, c0, index, c, due, k);
    }
  }

  lemma HomeQueue(dir: Registry, index0: seq<Scored>, c0: map<QueueId, seq<Item>>, index: seq<Scored>,
                  c: map<QueueId, seq<Item>>, due: seq<string>, k: QueueId)
    requires IndexAgrees(index0, c0, UserQueue, iset{}) && AllHome(dir, due) && k.kind == UserQueue
    requires index == Keep(index0, KeySet(due) + Texts(dir, due)) && Drained(dir, due, c0, c)
    ensures ListsAt(index, c, iset{}, k) && AgesAt(index, c, k)
  {
    var off := KeySet(due) + Texts(dir, due);
    assert ListsAt(index0, c0, iset{}, k) && AgesAt(index0, c0, k);
    assert ItemsIn(c, k) == if Target(dir, due, k) then [] else ItemsIn(c0, k);
    HomeTargets(dir, due, k);
    KeepMembers(index0, off);
    MemberOf(index0, KeyText(k));
    MemberOf(index, KeyText(k));
    AgesFromMembers(index0, c0, k);
    AgesFromMembers(index, c, k);
  }

  /** For the program's own directories this is exact: a run succeeds and leaves the index in
      step with the queues if and only if every due key leads home. */
  lemma InStepExactly(dir: Registry, index0: seq<Scored>, c0: map<QueueId, seq<Item>>, index: seq<Scored>,
                      c: map<QueueId, seq<Item>>, limit: nat, ok: bool)
    requires Keyed(dir) && IndexAgrees(index0, c0, UserQueue, iset{})
    requires Persisted(dir, index0, c0, index, c, limit, ok)
    ensures ok && IndexAgrees(index, c, UserQueue, iset{}) <==> AllHome(dir, DueKeys(index0, limit))
  {
    var due := DueKeys(index0, limit);
    if AllHome(dir, due) { HomeRunInStep(dir, index0, c0, index, c, limit, ok); }
    AllOrFirst(dir, due);
    if ok && IndexAgrees(index, c, UserQueue, iset{}) {
      forall key | key in due ensures HomeKey(dir, key) {
        DueKeyIsHome(dir, index0, c0, index, c, limit, key);
      }
    }
  }

  lemma DueKeyIsHome(dir: Registry, index0: seq<Scored>, c0: map<QueueId, seq<Item>>, index: seq<Scored>,
                     c: map<QueueId, seq<Item>>, limit: nat, key: string)
    requires Keyed(dir) && IndexAgrees(index0, c0, UserQueue, iset{}) && IndexAgrees(index, c, UserQueue, iset{})
    requires var due := DueKeys(index0, limit);
      Drained(dir, due, c0, c) && index == Keep(index0, KeySet(due) + Texts(dir, due)) && key in due
    ensures HomeKey(dir, key)
  {
    var due := DueKeys(index0, limit);
    var k := DueQueue(index0, c0, limit, key);
    KeepMembers(index0, KeySet(due) + Texts(dir, due));
    MemberOf(index, key);
    assert ListsAt(index, c, iset{}, k);
    assert ItemsIn(c, k) == if Target(dir, due, k) then [] else ItemsIn(c0, k);
    TargetKind(dir, due, k);
    OwnedLeadsHome(dir, k);
  }

  /** A due key is that of a queue which holds messages. */
  lemma DueQueue(index0: seq<Scored>, c0: map<QueueId, seq<Item>>, limit: nat, key: string) returns (k: QueueId)
    requires IndexAgrees(index0, c0, UserQueue, iset{}) && key in DueKeys(index0, limit)
    ensures k.kind == UserQueue && KeyText(k) == key && ItemsIn(c0, k) != []
  {
    var r := ZRangeByScore(index0, 0, limit);
    var i :| 0 <= i < |r| && r[i].member == key;
    RangeMembers(index0, 0, limit);
    assert r[i] in r && r[i] in index0;
    assert KeyOf(UserQueue, r[i].member);
    k :| k.kind == UserQueue && key == KeyText(k);
    MemberOf(index0, key);
    assert ListsAt(index0, c0, iset{}, k);
  }

  // ---- What a failed run leaves behind ----

  /** A failed run strands queues that were in order. A due queue that no key before the
      failing one led to still holds its messages, and it is off the index if it was among
      the keys the failed poll had taken; with at most a poll of due queues, it always is. */
  lemma StrandedQueues(dir: Registry, index0: seq<Scored>, c0: map<QueueId, seq<Item>>, index: seq<Scored>,
                       c: map<QueueId, seq<Item>>, limit: nat, k: QueueId) returns (e: nat)
    requires Orderly(index0, c0) && Persisted(dir, index0, c0, index, c, limit, false)
    requires var due := DueKeys(index0, limit);
      k.kind == UserQueue && KeyText(k) in due && !Target(dir, due[..Leading(dir, due)], k)
    ensures ItemsIn(c, k) == ItemsIn(c0, k) != []
    ensures var due := DueKeys(index0, limit);
      && TakenOff(dir, index0, index, due, Leading(dir, due), e)
      && (HasMember(index, KeyText(k)) <==> KeyText(k) !in due[..e])
      && (|due| <= 100 ==> !HasMember(index, KeyText(k)))
  {
    var due := DueKeys(index0, limit);
    var p := Leading(dir, due);
    DueIsListed(index0, limit, KeyText(k));
    assert ItemsIn(c, k) == ItemsIn(c0, k);
    e :| TakenOff(dir, index0, index, due, p, e);
    StillListed(dir, index0, index, due, p, e, k);
    assert e == |due| ==> due[..e] == due;
  }

  lemma DueIsListed(index0: seq<Scored>, limit: nat, key: string)
    requires key in DueKeys(index0, limit)
    ensures HasMember(index0, key)
  {
    var r := ZRangeByScore(index0, 0, limit);
    var i :| 0 <= i < |r| && r[i].member == key;
    RangeMembers(index0, 0, limit);
    assert r[i] in r && r[i] in index0;
    MemberOf(index0, key);
  }

  lemma StillListed(dir: Registry, index0: seq<Scored>, index: seq<Scored>, due: seq<string>, p: nat, e: nat,
                    k: QueueId)
    requires TakenOff(dir, index0, index, due, p, e)
    requires k.kind == UserQueue && HasMember(index0, KeyText(k)) && !Target(dir, due[..p], k)
    ensures HasMember(index, KeyText(k)) <==> KeyText(k) !in due[..e]
  {
    var off := KeySet(due[..e]) + Texts(dir, due[..p]);
    if KeyText(k) in Texts(dir, due[..p]) {
      var j: QueueId :| j.kind == UserQueue && Target(dir, due[..p], j) && KeyText(k) == KeyText(j);
      KeyTextInjective(j, k);
    }
    KeepMembers(index0, off);
    MemberOf(index0, KeyText(k));
    MemberOf(index, KeyText(k));
  }

  /** Two queues of device 1, each waiting with one message: first one of an account that no
      longer exists, then one of an account that does. */
  ghost predicate TwoWaiting(gone: string, known: string, dir: Registry, index0: seq<Scored>,
                             c0: map<QueueId, seq<Item>>)
  {
    var a, b := MailQueue(gone, 1), MailQueue(known, 1);
    && gone != known && PlainName(gone) && PlainName(known) && dir == map[known := Account(known, [1])]
    && index0 == [Scored(0, KeyText(a)), Scored(1, KeyText(b))]
    && |ItemsIn(c0, a)| == |ItemsIn(c0, b)| == 1
    && ItemsIn(c0, a)[0].insertedAt == 0 && ItemsIn(c0, b)[0].insertedAt == 1
  }

  lemma TwoInserted(gone: string, known: string, indexes: map<Kind, seq<Scored>>)
    requires gone != known && indexes == AfterPut(AfterPut(map[], MailQueue(gone, 1), 0), MailQueue(known, 1), 1)
    ensures IndexIn(indexes, UserQueue)
      == [Scored(0, KeyText(MailQueue(gone, 1))), Scored(1, KeyText(MailQueue(known, 1)))]
  {
    var x, y := KeyText(MailQueue(gone, 1)), KeyText(MailQueue(known, 1));
    if x == y { KeyTextInjective(MailQueue(gone, 1), MailQueue(known, 1)); }
    assert ZAddNX([], 0, x) == [Scored(0, x)];
    var one := [Scored(0, x)];
    assert one[1..] == [] && !HasMember(one, y);
    assert ZInsert([], Scored(1, y)) == [Scored(1, y)];
    assert ZInsert(one, Scored(1, y)) == one + [Scored(1, y)];
  }

  lemma TwoWaitingDue(gone: string, known: string, dir: Registry, index0: seq<Scored>, c0: map<QueueId, seq<Item>>,
                      limit: nat)
    requires TwoWaiting(gone, known, dir, index0, c0) && limit >= 1
    ensures DueKeys(index0, limit) == [KeyText(MailQueue(gone, 1)), KeyText(MailQueue(known, 1))]
    ensures Leading(dir, DueKeys(index0, limit)) == 0 && LeadsHome(dir, MailQueue(known, 1))
  {
    RangeConcat(index0, [], limit);
    assert index0 + [] == index0;
    KeyRoundTrip(gone, 1);
    ResolvesItself(dir, known, 1);
  }

  /** The run stops at the account that is gone and strands the other queue. */
  lemma OtherStranded(gone: string, known: string, dir: Registry, index0: seq<Scored>, c0: map<QueueId, seq<Item>>,
                      index: seq<Scored>, c: map<QueueId, seq<Item>>, limit: nat, ok: bool)
    requires TwoWaiting(gone, known, dir, index0, c0) && limit >= 1 && Orderly(index0, c0)
    requires Persisted(dir, index0, c0, index, c, limit, ok)
    ensures var b := MailQueue(known, 1);
      && LeadsHome(dir, b) && !ok && !AllYounger(c, limit)
      && ItemsIn(c, b) == ItemsIn(c0, b) && !HasMember(index, KeyText(b))
  {
    var b, due := MailQueue(known, 1), DueKeys(index0, limit);
    TwoWaitingDue(gone, known, dir, index0, c0, limit);
    assert due[..0] == [] && due[1] == KeyText(b);
    var e := StrandedQueues(dir, index0, c0, index, c, limit, b);
    assert ItemsIn(c, b)[0].insertedAt == 1;
  }

  /** A stranded queue is listed again with the time of its next message. */
  lemma ListedAnew(index: seq<Scored>, now: nat, key: string)
    requires !HasMember(index, key)
    ensures forall e :: e in ZAddNX(index, now, key) && e.member == key ==> e.score == now
    ensures HasMember(ZAddNX(index, now, key), key)
  {
    AddedMembers(index, now, key);
    MemberOf(index, key);
  }
}
