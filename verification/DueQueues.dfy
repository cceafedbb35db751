/** Which queues one run of the persister moves, as a function of the index and the account
    directory it starts from, and what that means for the age of cached messages. */
module DueQueues {
  import opened Bincode
  import opened Limits
  import opened Text
  import opened SortedSet
  import opened Entries
  import opened QueueKeys
  import opened RedisQueues
  import opened MessageCache

  // ---- From a key to the queue that is drained for it ----

  /** An account as the persister sees it: the name its queues go by, and its devices. */
  datatype Account = Account(aci: string, devices: seq<nat>)

  /** Accounts by service id. An account is found by its account identifier and by its
      phone-number identity. */
  type Registry = map<string, Account>

  /** The queue that is drained for a key found in the index: the device must be one of the
      account's. The queue goes by the account's own name, whatever the key said. */
  function Resolve(dir: Registry, key: string): Option<QueueId> {
    var parts := ParseKey(key);
    if parts.None? || parts.value.0 !in dir then None
    else
      var account, device := dir[parts.value.0], ParseNat(parts.value.1);
      if device.None? || device.value !in account.devices then None
      else Some(MailQueue(account.aci, device.value))
  }

  ghost predicate LeadsHome(dir: Registry, k: QueueId) {
    Resolve(dir, KeyText(k)) == Some(k)
  }

  /** A plain name leads back to its own queue exactly when the account exists, is keyed by
      its own name and has the device. */
  lemma ResolvesItself(dir: Registry, name: string, device: nat)
    requires PlainName(name)
    ensures LeadsHome(dir, MailQueue(name, device))
      <==> name in dir && dir[name].aci == name && device in dir[name].devices
  {
    KeyRoundTrip(name, device);
    NatRoundTrip(device);
  }

  /** Some account has this queue. */
  ghost predicate Owned(dir: Registry, k: QueueId) {
    exists n :: n in dir && dir[n].aci == k.name && k.device in dir[n].devices
  }

  /** As the program's accounts are: each is also found by the plain name its queues go by. */
  ghost predicate Keyed(dir: Registry) {
    forall n {:trigger n in dir} :: n in dir ==>
      PlainName(dir[n].aci) && dir[n].aci in dir && dir[dir[n].aci] == dir[n]
  }

  /** A queue some key leads to is led to by its own key, if it holds messages. */
  ghost predicate Settled(dir: Registry, contents: map<QueueId, seq<Item>>) {
    forall key: string, k: QueueId {:trigger Resolve(dir, key), LeadsHome(dir, k)} ::
      Resolve(dir, key) == Some(k) && ItemsIn(contents, k) != [] ==> LeadsHome(dir, k)
  }

  lemma OwnedLeadsHome(dir: Registry, k: QueueId)
    requires Keyed(dir) && k.kind == UserQueue
    ensures Owned(dir, k) <==> PlainName(k.name) && LeadsHome(dir, k)
  {
    if Owned(dir, k) {
      var n :| n in dir && dir[n].aci == k.name && k.device in dir[n].devices;
      ResolvesItself(dir, k.name, k.device);
    }
    if PlainName(k.name) && LeadsHome(dir, k) { ResolvesItself(dir, k.name, k.device); }
  }

  lemma KeyedIsSettled(dir: Registry, contents: map<QueueId, seq<Item>>)
    requires Keyed(dir)
    ensures Settled(dir, contents)
  {
    forall key: string, k: QueueId | Resolve(dir, key) == Some(k) ensures LeadsHome(dir, k) {
      var n := ParseKey(key).value.0;
      assert n in dir && dir[n].aci == k.name && k.device in dir[n].devices;
      OwnedLeadsHome(dir, k);
    }
  }

  // ---- The keys of one list, in order, up to the first that leads nowhere ----

  /** How many keys lead somewhere before the first that does not. */
  function Leading(dir: Registry, keys: seq<string>): (n: nat)
    ensures n <= |keys|
    ensures forall i :: 0 <= i < n ==> Resolve(dir, keys[i]).Some?
    ensures n < |keys| ==> Resolve(dir, keys[n]).None?
  {
    if keys == [] || Resolve(dir, keys[0]).None? then 0 else 1 + Leading(dir, keys[1..])
  }

  /** One of the keys leads to k. */
  ghost predicate Target(dir: Registry, keys: seq<string>, k: QueueId) {
    exists key {:trigger Resolve(dir, key)} :: key in keys && Resolve(dir, key) == Some(k)
  }

  /** The keys of the queues a list of keys leads to. */
  ghost function Texts(dir: Registry, keys: seq<string>): iset<string> {
    iset k: QueueId | k.kind == UserQueue && Target(dir, keys, k) :: KeyText(k)
  }

  /** What has left the index once the keys have been polled and their queues drained. */
  ghost function Off(dir: Registry, keys: seq<string>): iset<string> {
    (iset key | key in keys) + Texts(dir, keys)
  }

  lemma LeadingIs(dir: Registry, keys: seq<string>, n: nat)
    requires n <= |keys| && forall i :: 0 <= i < n ==> Resolve(dir, keys[i]).Some?
    requires n < |keys| ==> Resolve(dir, keys[n]).None?
    ensures Leading(dir, keys) == n
  {
  }

  lemma TargetKind(dir: Registry, keys: seq<string>, k: QueueId)
    requires Target(dir, keys, k)
    ensures k.kind == UserQueue && Owned(dir, k)
  {
    var key :| key in keys && Resolve(dir, key) == Some(k);
    var n := ParseKey(key).value.0;
    assert n in dir && dir[n].aci == k.name && k.device in dir[n].devices;
  }

  // ---- What is left of an index ----

  /** The entries whose member is not among those off. */
  ghost function Keep(z: seq<Scored>, off: iset<string>): (r: seq<Scored>)
    ensures |r| <= |z|
  {
    if z == [] then [] else (if z[0].member in off then [] else [z[0]]) + Keep(z[1..], off)
  }

  lemma {:induction false} KeepMembers(z: seq<Scored>, off: iset<string>)
    ensures forall e :: e in Keep(z, off) <==> e in z && e.member !in off
  {
    if z != [] {
      KeepMembers(z[1..], off);
      assert z == [z[0]] + z[1..];
    }
  }

  lemma KeepCons(e: Scored, z: seq<Scored>, off: iset<string>)
    ensures Keep([e] + z, off) == (if e.member in off then [] else [e]) + Keep(z, off)
  {
    assert ([e] + z)[0] == e && ([e] + z)[1..] == z;
  }

  lemma {:induction false} KeepSame(z: seq<Scored>, a: iset<string>, b: iset<string>)
    requires forall e :: e in z ==> (e.member in a <==> e.member in b)
    ensures Keep(z, a) == Keep(z, b)
  {
    if z != [] {
      assert z[0] in z;
      KeepSame(z[1..], a, b);
    }
  }

  lemma {:induction false} KeepAll(z: seq<Scored>, off: iset<string>)
    requires forall e :: e in z ==> e.member !in off
    ensures Keep(z, off) == z
  {
    if z != [] {
      assert z[0] in z;
      KeepAll(z[1..], off);
      assert z == [z[0]] + z[1..];
    }
  }

  lemma {:induction false} KeepConcat(x: seq<Scored>, y: seq<Scored>, off: iset<string>)
    ensures Keep(x + y, off) == Keep(x, off) + Keep(y, off)
  {
    if x == [] {
      assert x + y == y;
    } else {
      assert (x + y)[0] == x[0] && (x + y)[1..] == x[1..] + y;
      KeepConcat(x[1..], y, off);
      var h := if x[0].member in off then [] else [x[0]];
      assert h + Keep(x[1..], off) + Keep(y, off) == h + (Keep(x[1..], off) + Keep(y, off));
    }
  }

  lemma {:induction false} KeepTwice(z: seq<Scored>, a: iset<string>, b: iset<string>)
    ensures Keep(Keep(z, a), b) == Keep(z, a + b)
  {
    if z != [] {
      KeepTwice(z[1..], a, b);
      assert z == [z[0]] + z[1..];
      KeepCons(z[0], z[1..], a);
      KeepCons(z[0], z[1..], a + b);
      if z[0].member in a {
        assert [] + Keep(z[1..], a) == Keep(z[1..], a);
      } else {
        KeepCons(z[0], Keep(z[1..], a), b);
      }
    }
  }

  lemma {:induction false} RemIsKeep(z: seq<Scored>, member: string)
    ensures ZRem(z, member) == Keep(z, iset{member})
  {
    if z != [] { RemIsKeep(z[1..], member); }
  }

  lemma {:induction false} RemoveKeysIsKeep(z: seq<Scored>, keys: seq<string>)
    ensures RemoveKeys(z, keys) == Keep(z, iset key | key in keys)
    decreases |keys|
  {
    if keys == [] {
      KeepAll(z, iset key | key in keys);
    } else {
      RemIsKeep(z, keys[0]);
      RemoveKeysIsKeep(ZRem(z, keys[0]), keys[1..]);
      var rest := iset key | key in keys[1..];
      KeepTwice(z, iset{keys[0]}, rest);
      assert keys == [keys[0]] + keys[1..];
      assert iset{keys[0]} + rest == iset key | key in keys;
    }
  }

  /** The first n entries kept come from the first m, which end in one of them. */
  ghost predicate CutAt(z: seq<Scored>, off: iset<string>, n: nat, m: nat) {
    && n <= |Keep(z, off)| && m <= |z|
    && Keep(z[..m], off) == Keep(z, off)[..n] && Keep(z[m..], off) == Keep(z, off)[n..]
    && if n == 0 then m == 0 else m > 0 && z[m - 1] == Keep(z, off)[n - 1]
  }

  lemma PrefixGrows(z: seq<Scored>, off: iset<string>, i: nat)
    requires i < |z|
    ensures Keep(z[..i + 1], off) == (if z[0].member in off then [] else [z[0]]) + Keep(z[1..][..i], off)
    ensures z[i + 1..] == z[1..][i..]
  {
    assert z[..i + 1] == [z[0]] + z[1..][..i];
    KeepCons(z[0], z[1..][..i], off);
  }

  lemma CutAtOff(z: seq<Scored>, off: iset<string>, n: nat, i: nat)
    requires z != [] && z[0].member in off && n > 0 && CutAt(z[1..], off, n, i)
    ensures CutAt(z, off, n, i + 1)
  {
    assert z == [z[0]] + z[1..];
    KeepCons(z[0], z[1..], off);
    assert [] + Keep(z[1..], off) == Keep(z[1..], off);
    PrefixGrows(z, off, i);
    assert [] + Keep(z[1..][..i], off) == Keep(z[1..][..i], off);
  }

  lemma CutAtKept(z: seq<Scored>, off: iset<string>, n: nat, i: nat)
    requires z != [] && z[0].member !in off && n > 0 && CutAt(z[1..], off, n - 1, i)
    ensures CutAt(z, off, n, i + 1)
  {
    assert z == [z[0]] + z[1..];
    KeepCons(z[0], z[1..], off);
    PrefixGrows(z, off, i);
    Behind(z[0], Keep(z[1..], off), n);
  }

  lemma Behind<T>(h: T, r: seq<T>, n: nat)
    requires 0 < n <= |r| + 1
    ensures ([h] + r)[..n] == [h] + r[..n - 1] && ([h] + r)[n..] == r[n - 1..]
    ensures n > 1 ==> ([h] + r)[n - 1] == r[n - 2]
  {
  }

  lemma {:induction false} KeepPrefix(z: seq<Scored>, off: iset<string>, n: nat) returns (m: nat)
    requires n <= |Keep(z, off)|
    ensures CutAt(z, off, n, m)
  {
    if n == 0 {
      m := 0;
      assert z[..0] == [] && z[0..] == z;
    } else {
      assert z == [z[0]] + z[1..];
      KeepCons(z[0], z[1..], off);
      if z[0].member in off {
        var i := KeepPrefix(z[1..], off, n);
        CutAtOff(z, off, n, i);
        m := i + 1;
      } else {
        var i := KeepPrefix(z[1..], off, n - 1);
        CutAtKept(z, off, n, i);
        m := i + 1;
      }
    }
  }

  lemma {:induction false} RangeNone(z: seq<Scored>, limit: nat)
    requires forall e :: e in z ==> e.score > limit
    ensures ZRangeByScore(z, 0, limit) == []
  {
    if z != [] {
      assert z[0] in z;
      RangeNone(z[1..], limit);
    }
  }

  /** An index sorted by score: the entries up to a limit are a prefix. */
  lemma {:induction false} RangeIsPrefix(z: seq<Scored>, limit: nat)
    requires ByScore(z)
    ensures var r := ZRangeByScore(z, 0, limit);
      && r == z[..|r|]
      && (forall i :: 0 <= i < |r| ==> z[i].score <= limit)
      && (forall i :: |r| <= i < |z| ==> z[i].score > limit)
  {
    if z != [] && z[0].score <= limit {
      RangeIsPrefix(z[1..], limit);
      var more := ZRangeByScore(z[1..], 0, limit);
      assert z[..|more| + 1] == [z[0]] + z[1..][..|more|];
    } else {
      RangeNone(z, limit);
    }
  }

  lemma {:induction false} KeepByScore(z: seq<Scored>, off: iset<string>)
    requires ByScore(z)
    ensures ByScore(Keep(z, off))
  {
    if z != [] {
      KeepByScore(z[1..], off);
      KeepMembers(z[1..], off);
      var r := Keep(z[1..], off);
      forall i | 0 <= i < |r| ensures z[0].score <= r[i].score {
        assert r[i] in r;
        var j :| 0 <= j < |z[1..]| && z[1..][j] == r[i];
        assert z[j + 1] == r[i];
      }
    }
  }

  // ---- How far a run has come ----

  function DueKeys(index: seq<Scored>, limit: nat): seq<string> {
    Members(ZRangeByScore(index, 0, limit))
  }

  /** The keys one poll finds. */
  function PolledKeys(index: seq<Scored>, limit: nat): seq<string> {
    Members(Limit(ZRangeByScore(index, 0, limit), QUEUE_BATCH_LIMIT))
  }

  ghost predicate AllResolve(dir: Registry, keys: seq<string>) {
    forall key {:trigger Resolve(dir, key)} :: key in keys ==> Resolve(dir, key).Some?
  }

  /** Exactly the queues the keys lead to are empty, the others as they were. */
  ghost predicate Drained(dir: Registry, keys: seq<string>, c0: map<QueueId, seq<Item>>, c: map<QueueId, seq<Item>>) {
    forall k: QueueId {:trigger ItemsIn(c, k)} ::
      ItemsIn(c, k) == if Target(dir, keys, k) then [] else ItemsIn(c0, k)
  }

  /** A run has dealt with the first n entries of its index, all due by the limit: their keys
      lead somewhere, those queues are drained, and they are off the index. */
  ghost predicate Reached(dir: Registry, index0: seq<Scored>, c0: map<QueueId, seq<Item>>,
                          index: seq<Scored>, c: map<QueueId, seq<Item>>, limit: nat, n: nat) {
    && n <= |index0| && (forall i :: 0 <= i < n ==> index0[i].score <= limit)
    && AllResolve(dir, Members(index0[..n]))
    && Drained(dir, Members(index0[..n]), c0, c)
    && index == Keep(index0[n..], Off(dir, Members(index0[..n])))
  }

  lemma ReachedStart(dir: Registry, index0: seq<Scored>, c0: map<QueueId, seq<Item>>, limit: nat)
    ensures Reached(dir, index0, c0, index0, c0, limit, 0)
  {
    assert index0[0..] == index0 && Members(index0[..0]) == [];
    KeepAll(index0, Off(dir, []));
  }

  /** Only queues that hold messages are listed. */
  ghost predicate ListedHold(index: seq<Scored>, c: map<QueueId, seq<Item>>) {
    forall k: QueueId {:trigger HasMember(index, KeyText(k))} ::
      k.kind == UserQueue && HasMember(index, KeyText(k)) ==> ItemsIn(c, k) != []
  }

  /** A sorted index that lists only queues which hold messages. It holds of the store at every
      moment, whatever runs have failed before. */
  ghost predicate Orderly(index: seq<Scored>, c: map<QueueId, seq<Item>>) {
    ByScore(index) && ListedHold(index, c)
  }

  lemma ReachedListed(dir: Registry, index0: seq<Scored>, c0: map<QueueId, seq<Item>>,
                      index: seq<Scored>, c: map<QueueId, seq<Item>>, limit: nat, n: nat)
    requires Orderly(index0, c0) && Reached(dir, index0, c0, index, c, limit, n)
    ensures ListedHold(index, c)
  {
    var done := Members(index0[..n]);
    KeepMembers(index0[n..], Off(dir, done));
    forall k: QueueId | k.kind == UserQueue && HasMember(index, KeyText(k)) ensures ItemsIn(c, k) != [] {
      MemberOf(index, KeyText(k));
      MemberOf(index0, KeyText(k));
      var e :| e in index && e.member == KeyText(k);
      assert e in index0;
      assert Target(dir, done, k) ==> KeyText(k) in Texts(dir, done);
    }
  }

  /** done' leads where done and ks lead. */
  ghost predicate Adds(dir: Registry, done: seq<string>, ks: seq<string>, done': seq<string>) {
    forall k {:trigger Target(dir, done', k)} :: Target(dir, done', k) <==> Target(dir, done, k) || Target(dir, ks, k)
  }

  lemma TargetConcat(dir: Registry, x: seq<string>, y: seq<string>, k: QueueId)
    ensures Target(dir, x + y, k) <==> Target(dir, x, k) || Target(dir, y, k)
  {
    if key :| key in x && Resolve(dir, key) == Some(k) { assert key in x + y; }
    if key :| key in y && Resolve(dir, key) == Some(k) { assert key in x + y; }
  }

  /** Further entries up to m, of which those still listed have the keys ks: the others lead
      to queues already drained, and bring nothing new. */
  lemma EntriesBetween(dir: Registry, index0: seq<Scored>, c0: map<QueueId, seq<Item>>, n: nat, m: nat,
                       ks: seq<string>)
    requires Orderly(index0, c0) && Settled(dir, c0) && n <= m <= |index0|
    requires AllResolve(dir, Members(index0[..n])) && AllResolve(dir, ks)
    requires Members(Keep(index0[n..m], Off(dir, Members(index0[..n])))) == ks
    ensures AllResolve(dir, Members(index0[..m]))
    ensures Adds(dir, Members(index0[..n]), ks, Members(index0[..m]))
  {
    var done, more := Members(index0[..n]), index0[n..m];
    assert Members(index0[..m]) == done + Members(more);
    forall key | key in Members(more) && key !in ks
      ensures Resolve(dir, key).Some? && Target(dir, done, Resolve(dir, key).value)
    {
      SkippedKey(dir, index0, c0, n, m, key);
    }
    forall key | key in ks ensures key in Members(more) { KeptOrOff(more, Off(dir, done), key); }
    NothingNew(dir, done, Members(more), ks);
  }

  /** Keys of which those not among ks lead only where others have led. */
  lemma NothingNew(dir: Registry, done: seq<string>, more: seq<string>, ks: seq<string>)
    requires AllResolve(dir, done) && AllResolve(dir, ks) && forall key :: key in ks ==> key in more
    requires forall key {:trigger Resolve(dir, key)} :: key in more && key !in ks ==>
      Resolve(dir, key).Some? && Target(dir, done, Resolve(dir, key).value)
    ensures AllResolve(dir, done + more) && Adds(dir, done, ks, done + more)
  {
    forall k ensures Target(dir, done + more, k) <==> Target(dir, done, k) || Target(dir, ks, k) {
      TargetConcat(dir, done, more, k);
    }
  }

  lemma SkippedKey(dir: Registry, index0: seq<Scored>, c0: map<QueueId, seq<Item>>, n: nat, m: nat, key: string)
    requires Orderly(index0, c0) && Settled(dir, c0) && n <= m <= |index0|
    requires AllResolve(dir, Members(index0[..n])) && key in Members(index0[n..m])
    requires key !in Members(Keep(index0[n..m], Off(dir, Members(index0[..n]))))
    ensures Resolve(dir, key).Some? && Target(dir, Members(index0[..n]), Resolve(dir, key).value)
  {
    var done, more := Members(index0[..n]), index0[n..m];
    KeptOrOff(more, Off(dir, done), key);
    if key !in done {
      SliceMember(index0, n, m, key);
      DrainedKey(dir, index0, c0, done, key);
    }
  }

  lemma SliceMember(index0: seq<Scored>, n: nat, m: nat, key: string)
    requires n <= m <= |index0| && key in Members(index0[n..m])
    ensures HasMember(index0, key)
  {
    var i :| 0 <= i < m - n && index0[n..m][i].member == key;
    assert index0[n + i].member == key;
  }

  /** The key of a queue already led to leads to it again. */
  lemma DrainedKey(dir: Registry, index0: seq<Scored>, c0: map<QueueId, seq<Item>>, done: seq<string>, key: string)
    requires Orderly(index0, c0) && Settled(dir, c0)
    requires key in Texts(dir, done) && HasMember(index0, key)
    ensures Resolve(dir, key).Some? && Target(dir, done, Resolve(dir, key).value)
  {
    var q: QueueId :| q.kind == UserQueue && Target(dir, done, q) && key == KeyText(q);
    var first :| first in done && Resolve(dir, first) == Some(q);
    assert LeadsHome(dir, q);
  }

  ghost function KeySet(keys: seq<string>): iset<string> { iset key | key in keys }

  lemma TextsOfMore(dir: Registry, done: seq<string>, ks: seq<string>, done': seq<string>)
    requires Adds(dir, done, ks, done')
    ensures Texts(dir, done') == Texts(dir, done) + Texts(dir, ks)
  {
    forall t ensures t in Texts(dir, done') <==> t in Texts(dir, done) || t in Texts(dir, ks) {
      if t in Texts(dir, done') {
        var k: QueueId :| k.kind == UserQueue && Target(dir, done', k) && t == KeyText(k);
        assert Target(dir, done, k) || Target(dir, ks, k);
      }
      if t in Texts(dir, done) || t in Texts(dir, ks) {
        var k: QueueId :| k.kind == UserQueue && (Target(dir, done, k) || Target(dir, ks, k)) && t == KeyText(k);
        assert Target(dir, done', k);
      }
    }
  }

  /** What the entries up to m take off the index: what was off, their keys, and the keys of
      the queues these lead to. */
  lemma OffBetween(dir: Registry, index0: seq<Scored>, n: nat, m: nat, ks: seq<string>)
    requires n <= m <= |index0| && Members(Keep(index0[n..m], Off(dir, Members(index0[..n])))) == ks
    requires Adds(dir, Members(index0[..n]), ks, Members(index0[..m]))
    ensures Off(dir, Members(index0[..m])) == Off(dir, Members(index0[..n])) + (KeySet(ks) + Texts(dir, ks))
  {
    var done, done', more := Members(index0[..n]), Members(index0[..m]), index0[n..m];
    TextsOfMore(dir, done, ks, done');
    assert done' == done + Members(more);
    forall t ensures t in done' || t in Texts(dir, done) <==> t in done || t in ks || t in Texts(dir, done) {
      KeptOrOff(more, Off(dir, done), t);
    }
  }

  lemma KeptOrOff(z: seq<Scored>, off: iset<string>, t: string)
    ensures t in Members(z) && t !in off <==> t in Members(Keep(z, off))
  {
    KeepMembers(z, off);
    var kept := Keep(z, off);
    if t in Members(z) && t !in off {
      var i :| 0 <= i < |z| && z[i].member == t;
      assert z[i] in z && z[i] in kept;
      var j :| 0 <= j < |kept| && kept[j] == z[i];
      assert Members(kept)[j] == t;
    }
    if t in Members(kept) {
      var i :| 0 <= i < |kept| && kept[i].member == t;
      assert kept[i] in kept && kept[i] in z;
      var j :| 0 <= j < |z| && z[j] == kept[i];
      assert Members(z)[j] == t;
    }
  }

  lemma DrainedMore(dir: Registry, x: seq<string>, y: seq<string>, xy: seq<string>,
                    c0: map<QueueId, seq<Item>>, c1: map<QueueId, seq<Item>>, c2: map<QueueId, seq<Item>>)
    requires Drained(dir, x, c0, c1) && Drained(dir, y, c1, c2)
    requires Adds(dir, x, y, xy)
    ensures Drained(dir, xy, c0, c2)
  {
    forall k: QueueId ensures ItemsIn(c2, k) == if Target(dir, xy, k) then [] else ItemsIn(c0, k) {
      assert ItemsIn(c1, k) == if Target(dir, x, k) then [] else ItemsIn(c0, k);
    }
  }

  lemma TailSorted(z: seq<Scored>, n: nat)
    requires ByScore(z) && n <= |z|
    ensures ByScore(z[n..])
  {
  }

  /** The entries of a poll stand at the head of the index. */
  lemma PollIsPrefix(index: seq<Scored>, limit: nat) returns (b: nat)
    requires ByScore(index)
    ensures b <= |index| && PolledKeys(index, limit) == Members(index[..b])
    ensures forall i :: 0 <= i < b ==> index[i].score <= limit
  {
    RangeIsPrefix(index, limit);
    b := |Limit(ZRangeByScore(index, 0, limit), QUEUE_BATCH_LIMIT)|;
    var r := ZRangeByScore(index, 0, limit);
    assert r[..b] == index[..b];
  }

  lemma {:induction false} KeepNone(z: seq<Scored>, off: iset<string>)
    requires forall i :: 0 <= i < |z| ==> z[i].member in off
    ensures Keep(z, off) == []
  {
    if z != [] { KeepNone(z[1..], off); }
  }

  /** Taking off what stands at the head leaves what stands behind, less what else is off. */
  lemma HeadOff(index: seq<Scored>, b: nat, off: iset<string>)
    requires b <= |index| && KeySet(Members(index[..b])) <= off
    ensures Keep(index, off) == Keep(index[b..], off)
  {
    var head := index[..b];
    KeepConcat(head, index[b..], off);
    assert head + index[b..] == index;
    forall i | 0 <= i < b ensures head[i].member in off {
      assert Members(head)[i] in KeySet(Members(head));
    }
    KeepNone(head, off);
    assert [] + Keep(index[b..], off) == Keep(index[b..], off);
  }

  /** The first b entries listed come from the entries up to m. */
  ghost predicate SplitAt(index0: seq<Scored>, off: iset<string>, n: nat, index: seq<Scored>, b: nat, m: nat) {
    && n <= m <= |index0| && b <= |index|
    && Keep(index0[n..m], off) == index[..b] && Keep(index0[m..], off) == index[b..]
    && if b == 0 then m == n else m > n && index0[m - 1] == index[b - 1]
  }

  lemma SplitIndex(index0: seq<Scored>, off: iset<string>, n: nat, index: seq<Scored>, b: nat) returns (m: nat)
    requires n <= |index0| && index == Keep(index0[n..], off) && b <= |index|
    ensures SplitAt(index0, off, n, index, b, m)
  {
    var i := KeepPrefix(index0[n..], off, b);
    m := n + i;
    assert index0[n..][..i] == index0[n..m] && index0[n..][i..] == index0[m..];
  }

  lemma RoundIndex(dir: Registry, index0: seq<Scored>, n: nat, index: seq<Scored>, b: nat, m: nat)
    requires n <= |index0| && SplitAt(index0, Off(dir, Members(index0[..n])), n, index, b, m)
    requires Adds(dir, Members(index0[..n]), Members(index[..b]), Members(index0[..m]))
    ensures var keys := Members(index[..b]);
      Keep(Keep(index, KeySet(keys)), Texts(dir, keys)) == Keep(index0[m..], Off(dir, Members(index0[..m])))
  {
    var keys, off := Members(index[..b]), Off(dir, Members(index0[..n]));
    var s := KeySet(keys) + Texts(dir, keys);
    OffBetween(dir, index0, n, m, keys);
    KeepTwice(index, KeySet(keys), Texts(dir, keys));
    HeadOff(index, b, s);
    KeepTwice(index0[m..], off, s);
  }

  /** A poll whose keys all lead somewhere takes the run on. */
  lemma RoundReaches(dir: Registry, index0: seq<Scored>, c0: map<QueueId, seq<Item>>, index: seq<Scored>,
                     c: map<QueueId, seq<Item>>, limit: nat, n: nat, c': map<QueueId, seq<Item>>) returns (m: nat)
    requires Orderly(index0, c0) && Settled(dir, c0)
    requires Reached(dir, index0, c0, index, c, limit, n)
    requires var keys := PolledKeys(index, limit); AllResolve(dir, keys) && Drained(dir, keys, c, c')
    ensures var keys := PolledKeys(index, limit);
      Reached(dir, index0, c0, Keep(Keep(index, KeySet(keys)), Texts(dir, keys)), c', limit, m)
  {
    var keys, done := PolledKeys(index, limit), Members(index0[..n]);
    var off := Off(dir, done);
    TailSorted(index0, n);
    KeepByScore(index0[n..], off);
    var b := PollIsPrefix(index, limit);
    m := SplitIndex(index0, off, n, index, b);
    EntriesBetween(dir, index0, c0, n, m, keys);
    RoundIndex(dir, index0, n, index, b, m);
    DrainedMore(dir, done, keys, Members(index0[..m]), c0, c, c');
    if b > 0 { UpToLast(index0, m, limit); }
  }

  lemma UpToLast(z: seq<Scored>, m: nat, limit: nat)
    requires ByScore(z) && 0 < m <= |z| && z[m - 1].score <= limit
    ensures forall i :: 0 <= i < m ==> z[i].score <= limit
  {
  }

  // ---- What a whole run does ----

  /** What a run that stopped at the p-th due key has taken off the index: the keys due up to
      an e behind it, and those of the queues led to before it. It is all due keys, or the
      last poll was a full one, and no more than a poll of them had not been dealt with. */
  ghost predicate TakenOff(dir: Registry, index0: seq<Scored>, index: seq<Scored>, due: seq<string>, p: nat, e: nat) {
    && p < e <= |due| <= |index0|
    && (e < |due| ==> e >= 100)
    && |Keep(index0[p..e], Off(dir, due[..p]))| <= 100
    && index == Keep(index0, KeySet(due[..e]) + Texts(dir, due[..p]))
  }

  /** The outcome of a run that last read the clock limit seconds past the delay: the due
      keys are dealt with in index order up to the first that leads nowhere. Exactly the
      queues they lead to are drained, and the run succeeds if there is no such key. */
  ghost predicate Persisted(dir: Registry, index0: seq<Scored>, c0: map<QueueId, seq<Item>>,
                            index: seq<Scored>, c: map<QueueId, seq<Item>>, limit: nat, ok: bool) {
    var due := DueKeys(index0, limit);
    var p := Leading(dir, due);
    && (ok <==> p == |due|)
    && Drained(dir, due[..p], c0, c)
    && (ok ==> index == Keep(index0, KeySet(due) + Texts(dir, due)))
    && (!ok ==> exists e :: TakenOff(dir, index0, index, due, p, e))
  }

  lemma DueIsPrefix(index0: seq<Scored>, limit: nat) returns (d: nat)
    requires ByScore(index0)
    ensures d <= |index0| && DueKeys(index0, limit) == Members(index0[..d])
    ensures forall i :: 0 <= i < |index0| ==> (i < d <==> index0[i].score <= limit)
  {
    RangeIsPrefix(index0, limit);
    d := |ZRangeByScore(index0, 0, limit)|;
  }

  lemma {:induction false} RangeConcat(x: seq<Scored>, y: seq<Scored>, limit: nat)
    requires forall e :: e in x ==> e.score <= limit
    requires forall e :: e in y ==> e.score > limit
    ensures ZRangeByScore(x + y, 0, limit) == x
  {
    if x == [] {
      assert x + y == y;
      RangeNone(y, limit);
    } else {
      assert x[0] in x;
      assert (x + y)[0] == x[0] && (x + y)[1..] == x[1..] + y;
      RangeConcat(x[1..], y, limit);
      assert x == [x[0]] + x[1..];
    }
  }

  lemma ScoresOf(index0: seq<Scored>, d: nat, limit: nat, n: nat)
    requires n <= d <= |index0|
    requires forall i :: 0 <= i < |index0| ==> (i < d <==> index0[i].score <= limit)
    ensures forall e :: e in index0[n..d] ==> e.score <= limit
    ensures forall e :: e in index0[d..] ==> e.score > limit
  {
    forall e | e in index0[n..d] ensures e.score <= limit {
      var j :| 0 <= j < d - n && index0[n..d][j] == e;
      assert index0[n + j] == e;
    }
    forall e | e in index0[d..] ensures e.score > limit {
      var j :| 0 <= j < |index0| - d && index0[d..][j] == e;
      assert index0[d + j] == e;
    }
  }

  /** What is still listed and due are the due entries that have not been dealt with. */
  lemma StillDue(index0: seq<Scored>, n: nat, d: nat, off: iset<string>, limit: nat)
    requires n <= d <= |index0|
    requires forall i :: 0 <= i < |index0| ==> (i < d <==> index0[i].score <= limit)
    ensures ZRangeByScore(Keep(index0[n..], off), 0, limit) == Keep(index0[n..d], off)
  {
    assert index0[n..] == index0[n..d] + index0[d..];
    KeepConcat(index0[n..d], index0[d..], off);
    KeepMembers(index0[n..d], off);
    KeepMembers(index0[d..], off);
    ScoresOf(index0, d, limit, n);
    RangeConcat(Keep(index0[n..d], off), Keep(index0[d..], off), limit);
  }

  /** A run whose last poll finds nothing. */
  lemma RunEnds(dir: Registry, index0: seq<Scored>, c0: map<QueueId, seq<Item>>,
                index: seq<Scored>, c: map<QueueId, seq<Item>>, limit: nat, n: nat)
    requires Orderly(index0, c0) && Settled(dir, c0)
    requires Reached(dir, index0, c0, index, c, limit, n) && PolledKeys(index, limit) == []
    ensures Persisted(dir, index0, c0, index, c, limit, true)
  {
    var done := Members(index0[..n]);
    var off := Off(dir, done);
    var d := DueIsPrefix(index0, limit);
    assert n > 0 ==> index0[n - 1].score <= limit;
    StillDue(index0, n, d, off, limit);
    var due := Members(index0[..d]);
    assert Keep(index0[n..d], off) == [];
    EntriesBetween(dir, index0, c0, n, d, []);
    OffBetween(dir, index0, n, d, []);
    LeadingIs(dir, due, |due|);
    assert due[..|due|] == due;
    DrainedMore(dir, done, [], due, c0, c, c);
    RunIndex(dir, index0, n, d, off, index);
  }

  lemma RunIndex(dir: Registry, index0: seq<Scored>, n: nat, d: nat, off: iset<string>, index: seq<Scored>)
    requires n <= d <= |index0| && index == Keep(index0[n..], off) && Keep(index0[n..d], off) == []
    requires Off(dir, Members(index0[..d])) == off + (KeySet([]) + Texts(dir, []))
    ensures index == Keep(index0, Off(dir, Members(index0[..d])))
  {
    var off' := Off(dir, Members(index0[..d]));
    assert off' == off by { NoKeys(dir); }
    HeadOff(index0, d, off');
    AllOff(index0, n, d, off);
    KeepMembers(index0[n..], off);
  }

  lemma NoKeys(dir: Registry)
    ensures KeySet([]) == iset{} && Texts(dir, []) == iset{}
  {
  }

  lemma AllOff(index0: seq<Scored>, n: nat, d: nat, off: iset<string>)
    requires n <= d <= |index0| && Keep(index0[n..d], off) == []
    ensures Keep(index0[n..], off) == Keep(index0[d..], off)
  {
    assert index0[n..] == index0[n..d] + index0[d..];
    KeepConcat(index0[n..d], index0[d..], off);
    assert [] + Keep(index0[d..], off) == Keep(index0[d..], off);
  }

  /** The first key of a poll that leads nowhere stands at m; what stands before it is dealt
      with. */
  lemma StrayAt(dir: Registry, index0: seq<Scored>, n: nat, index: seq<Scored>, b: nat, p: nat) returns (m: nat)
    requires n <= |index0| && index == Keep(index0[n..], Off(dir, Members(index0[..n]))) && p < b <= |index|
    ensures n <= m < |index0| && index0[m] == index[p]
    ensures Keep(index0[n..m], Off(dir, Members(index0[..n]))) == index[..p]
  {
    var off := Off(dir, Members(index0[..n]));
    var m1 := SplitIndex(index0, off, n, index, p + 1);
    m := m1 - 1;
    KeptIsNotOff(index0, off, n, index, p);
    SplitBeforeLast(index0, off, n, index, p, m);
  }

  lemma SplitBeforeLast(index0: seq<Scored>, off: iset<string>, n: nat, index: seq<Scored>, p: nat, m: nat)
    requires SplitAt(index0, off, n, index, p + 1, m + 1) && index[p].member !in off
    ensures n <= m < |index0| && index0[m] == index[p] && Keep(index0[n..m], off) == index[..p]
  {
    BeforeLast(index0, off, n, m);
    assert index[..p + 1][..p] == index[..p];
  }

  lemma KeptIsNotOff(index0: seq<Scored>, off: iset<string>, n: nat, index: seq<Scored>, p: nat)
    requires n <= |index0| && index == Keep(index0[n..], off) && p < |index|
    ensures index[p].member !in off
  {
    KeepMembers(index0[n..], off);
    assert index[p] in index;
  }

  lemma BeforeLast(index0: seq<Scored>, off: iset<string>, n: nat, m: nat)
    requires n <= m < |index0|
    ensures index0[m].member !in off ==>
      var r := Keep(index0[n..m + 1], off); r != [] && Keep(index0[n..m], off) == r[..|r| - 1]
  {
    var near := index0[n..m];
    assert index0[n..m + 1] == near + [index0[m]];
    KeepConcat(near, [index0[m]], off);
    KeepCons(index0[m], [], off);
    assert [index0[m]] + [] == [index0[m]];
  }

  /** A poll with a key that leads nowhere ends the run. */
  lemma RunFails(dir: Registry, index0: seq<Scored>, c0: map<QueueId, seq<Item>>, index: seq<Scored>,
                 c: map<QueueId, seq<Item>>, limit: nat, n: nat, c': map<QueueId, seq<Item>>)
    requires Orderly(index0, c0) && Settled(dir, c0)
    requires Reached(dir, index0, c0, index, c, limit, n)
    requires var keys := PolledKeys(index, limit); var p := Leading(dir, keys);
      p < |keys| && Drained(dir, keys[..p], c, c')
    ensures var keys := PolledKeys(index, limit); var p := Leading(dir, keys);
      Persisted(dir, index0, c0, Keep(Keep(index, KeySet(keys)), Texts(dir, keys[..p])), c', limit, false)
  {
    var keys, done := PolledKeys(index, limit), Members(index0[..n]);
    var off, p := Off(dir, done), Leading(dir, keys);
    TailSorted(index0, n);
    KeepByScore(index0[n..], off);
    var b := PollIsPrefix(index, limit);
    var m := StrayAt(dir, index0, n, index, b, p);
    RunStops(dir, index0, c0, index, c, limit, n, c', b, m);
  }

  lemma RunStops(dir: Registry, index0: seq<Scored>, c0: map<QueueId, seq<Item>>, index: seq<Scored>,
                 c: map<QueueId, seq<Item>>, limit: nat, n: nat, c': map<QueueId, seq<Item>>, b: nat, m: nat)
    requires Orderly(index0, c0) && Settled(dir, c0) && ByScore(index)
    requires Reached(dir, index0, c0, index, c, limit, n)
    requires b <= |index| && PolledKeys(index, limit) == Members(index[..b]) && b <= QUEUE_BATCH_LIMIT
    requires var p := Leading(dir, Members(index[..b]));
      && p < b && Drained(dir, Members(index[..b])[..p], c, c')
      && n <= m < |index0| && index0[m] == index[p] && index0[m].score <= limit
      && Keep(index0[n..m], Off(dir, Members(index0[..n]))) == index[..p]
    ensures var keys := PolledKeys(index, limit);
      Persisted(dir, index0, c0, Keep(Keep(index, KeySet(keys)), Texts(dir, keys[..Leading(dir, keys)])), c', limit,
        false)
  {
    var keys, done := Members(index[..b]), Members(index0[..n]);
    var p := Leading(dir, keys);
    assert keys[..p] == Members(index[..p]);
    LeadingResolve(dir, keys);
    EntriesBetween(dir, index0, c0, n, m, keys[..p]);
    DrainedMore(dir, done, keys[..p], Members(index0[..m]), c0, c, c');
    FailedIndex(dir, index0, n, index, limit, m, p, b);
    StoppedAt(dir, index0, c0, Keep(Keep(index, KeySet(keys)), Texts(dir, keys[..p])), c', limit, m);
  }

  lemma StoppedAt(dir: Registry, index0: seq<Scored>, c0: map<QueueId, seq<Item>>, left: seq<Scored>,
                  c: map<QueueId, seq<Item>>, limit: nat, m: nat)
    requires ByScore(index0) && m < |index0| && index0[m].score <= limit
    requires AllResolve(dir, Members(index0[..m])) && Resolve(dir, index0[m].member).None?
    requires Drained(dir, Members(index0[..m]), c0, c)
    requires exists e :: TakenOff(dir, index0, left, DueKeys(index0, limit), m, e)
    ensures Persisted(dir, index0, c0, left, c, limit, false)
  {
    StrayIsFirst(dir, index0, limit, m);
  }

  lemma LeadingResolve(dir: Registry, keys: seq<string>)
    ensures AllResolve(dir, keys[..Leading(dir, keys)])
  {
    var p := Leading(dir, keys);
    forall key | key in keys[..p] ensures Resolve(dir, key).Some? {
      var i :| 0 <= i < p && keys[..p][i] == key;
      assert keys[i] == key;
    }
  }

  lemma StrayIsFirst(dir: Registry, index0: seq<Scored>, limit: nat, m: nat)
    requires ByScore(index0) && m < |index0| && index0[m].score <= limit
    requires AllResolve(dir, Members(index0[..m])) && Resolve(dir, index0[m].member).None?
    ensures var due := DueKeys(index0, limit);
      Leading(dir, due) == m < |due| && due[m] == index0[m].member && due[..m] == Members(index0[..m])
  {
    var d := DueIsPrefix(index0, limit);
    var due := Members(index0[..d]);
    assert m < d;
    forall i | 0 <= i < m ensures Resolve(dir, due[i]).Some? {
      assert Members(index0[..m])[i] == due[i];
      assert due[i] in Members(index0[..m]);
    }
    LeadingIs(dir, due, m);
  }

  lemma FewerKept(z: seq<Scored>, n: nat, m: nat, e: nat, off: iset<string>, off': iset<string>)
    requires n <= m <= e <= |z| && off <= off'
    ensures |Keep(z[m..e], off')| <= |Keep(z[n..e], off)|
    ensures |Keep(z[n..m], off)| <= |Keep(z[n..e], off)|
  {
    assert z[n..e] == z[n..m] + z[m..e] && off + off' == off';
    KeepConcat(z[n..m], z[m..e], off);
    KeepTwice(z[m..e], off, off');
  }

  /** A poll takes the entries up to an e that had not been dealt with: all that are due, or
      as many as a poll takes. */
  lemma PollTakes(index0: seq<Scored>, n: nat, index: seq<Scored>, off: iset<string>, limit: nat, b: nat, d: nat)
    returns (e: nat)
    requires n <= d <= |index0| && index == Keep(index0[n..], off) && ByScore(index)
    requires forall i :: 0 <= i < |index0| ==> (i < d <==> index0[i].score <= limit)
    requires b <= |index| && PolledKeys(index, limit) == Members(index[..b])
    ensures n <= e <= d && Keep(index0[n..e], off) == index[..b]
    ensures e < d ==> b == QUEUE_BATCH_LIMIT
  {
    StillDue(index0, n, d, off, limit);
    RangeIsPrefix(index, limit);
    var r := ZRangeByScore(index, 0, limit);
    if b < QUEUE_BATCH_LIMIT {
      e := d;
      assert index[..b] == r;
    } else {
      e := SplitIndex(index0, off, n, index, b);
      assert index0[e - 1] == index[b - 1] && b <= |r|;
    }
  }

  /** What the poll that failed took off, and what was off before it. */
  lemma PollOff(dir: Registry, index0: seq<Scored>, n: nat, e: nat, keys: seq<string>)
    requires n <= e <= |index0| && keys == Members(Keep(index0[n..e], Off(dir, Members(index0[..n]))))
    ensures Off(dir, Members(index0[..n])) + KeySet(keys)
         == KeySet(Members(index0[..e])) + Texts(dir, Members(index0[..n]))
  {
    var done := Members(index0[..n]);
    var off := Off(dir, done);
    OffAndKept(index0, n, e, off, keys);
    assert Off(dir, done) == KeySet(done) + Texts(dir, done);
    assert KeySet(done) <= KeySet(Members(index0[..e]));
  }

  lemma OffAndKept(index0: seq<Scored>, n: nat, d: nat, off: iset<string>, keys: seq<string>)
    requires n <= d <= |index0| && KeySet(Members(index0[..n])) <= off
    requires keys == Members(Keep(index0[n..d], off))
    ensures off + KeySet(keys) == off + KeySet(Members(index0[..d]))
    ensures KeySet(Members(index0[..n])) <= KeySet(Members(index0[..d]))
  {
    var done, more := Members(index0[..n]), Members(index0[n..d]);
    assert Members(index0[..d]) == done + more;
    forall t ensures t in KeySet(Members(index0[..d])) <==> t in KeySet(done) || t in KeySet(more) {}
    forall t ensures t in KeySet(more) && t !in off <==> t in KeySet(keys) { KeptOrOff(index0[n..d], off, t); }
  }

  /** What a failed run leaves listed. */
  lemma FailedIndex(dir: Registry, index0: seq<Scored>, n: nat, index: seq<Scored>, limit: nat, m: nat, p: nat, b: nat)
    requires ByScore(index0) && n <= m < |index0| && (forall i :: 0 <= i < n ==> index0[i].score <= limit)
    requires index == Keep(index0[n..], Off(dir, Members(index0[..n]))) && p < b <= |index| && ByScore(index)
    requires Keep(index0[n..m], Off(dir, Members(index0[..n]))) == index[..p] && index0[m].score <= limit
    requires PolledKeys(index, limit) == Members(index[..b]) && b <= QUEUE_BATCH_LIMIT
    requires Adds(dir, Members(index0[..n]), Members(index[..p]), Members(index0[..m]))
    ensures var left := Keep(Keep(index, KeySet(Members(index[..b]))), Texts(dir, Members(index[..p])));
      exists e :: TakenOff(dir, index0, left, DueKeys(index0, limit), m, e)
  {
    var done, off := Members(index0[..n]), Off(dir, Members(index0[..n]));
    var left := Keep(Keep(index, KeySet(Members(index[..b]))), Texts(dir, Members(index[..p])));
    var d, e := PollEnds(index0, n, index, off, limit, b);
    KeptBefore(index0, n, m, e, off, index, p, b);
    LeftByPoll(dir, index0, n, m, e, index, p, b);
    IsTakenOff(dir, index0, left, DueKeys(index0, limit), d, m, e);
  }

  lemma IsTakenOff(dir: Registry, index0: seq<Scored>, left: seq<Scored>, due: seq<string>, d: nat, m: nat, e: nat)
    requires m < e <= d <= |index0| && due == Members(index0[..d]) && (e < d ==> e >= QUEUE_BATCH_LIMIT)
    requires |Keep(index0[m..e], Off(dir, Members(index0[..m])))| <= QUEUE_BATCH_LIMIT
    requires left == Keep(index0, KeySet(Members(index0[..e])) + Texts(dir, Members(index0[..m])))
    ensures TakenOff(dir, index0, left, due, m, e)
  {
    assert due[..e] == Members(index0[..e]) && due[..m] == Members(index0[..m]);
  }

  lemma LeftByPoll(dir: Registry, index0: seq<Scored>, n: nat, m: nat, e: nat, index: seq<Scored>, p: nat, b: nat)
    requires n <= m < e <= |index0| && p < b <= |index|
    requires index == Keep(index0[n..], Off(dir, Members(index0[..n])))
    requires Keep(index0[n..e], Off(dir, Members(index0[..n]))) == index[..b]
    requires Adds(dir, Members(index0[..n]), Members(index[..p]), Members(index0[..m]))
    ensures |Keep(index0[m..e], Off(dir, Members(index0[..m])))| <= b
    ensures Keep(Keep(index, KeySet(Members(index[..b]))), Texts(dir, Members(index[..p])))
      == Keep(index0, KeySet(Members(index0[..e])) + Texts(dir, Members(index0[..m])))
  {
    var done, more := Members(index0[..n]), Members(index0[..m]);
    TextsOfMore(dir, done, Members(index[..p]), more);
    FewLost(dir, index0, n, m, e, index, b, done, more);
    LeftListed(dir, index0, n, index, e, Members(index[..b]), Texts(dir, Members(index[..p])), more);
  }

  lemma PollEnds(index0: seq<Scored>, n: nat, index: seq<Scored>, off: iset<string>, limit: nat, b: nat)
    returns (d: nat, e: nat)
    requires ByScore(index0) && ByScore(index) && n < |index0| && index == Keep(index0[n..], off)
    requires forall i :: 0 <= i < n ==> index0[i].score <= limit
    requires b <= |index| && PolledKeys(index, limit) == Members(index[..b])
    ensures d <= |index0| && DueKeys(index0, limit) == Members(index0[..d])
    ensures n <= e <= d && Keep(index0[n..e], off) == index[..b]
    ensures e < d ==> b == QUEUE_BATCH_LIMIT
  {
    d := DueIsPrefix(index0, limit);
    assert n > 0 ==> index0[n - 1].score <= limit;
    e := PollTakes(index0, n, index, off, limit, b, d);
  }

  lemma KeptBefore(index0: seq<Scored>, n: nat, m: nat, e: nat, off: iset<string>, index: seq<Scored>, p: nat, b: nat)
    requires n <= m <= |index0| && n <= e <= |index0| && p < b <= |index|
    requires Keep(index0[n..m], off) == index[..p] && Keep(index0[n..e], off) == index[..b]
    ensures m < e && e - n >= b
  {
    if e <= m { FewerKept(index0, n, e, m, off, off); }
  }

  lemma FewLost(dir: Registry, index0: seq<Scored>, n: nat, m: nat, e: nat, index: seq<Scored>, b: nat,
                done: seq<string>, more: seq<string>)
    requires n <= m <= e <= |index0| && b <= |index| && done == Members(index0[..n]) && more == Members(index0[..m])
    requires Keep(index0[n..e], Off(dir, done)) == index[..b] && Texts(dir, done) <= Texts(dir, more)
    ensures |Keep(index0[m..e], Off(dir, more))| <= b
  {
    assert KeySet(done) <= KeySet(more) by { assert done == more[..n]; }
    FewerKept(index0, n, m, e, Off(dir, done), Off(dir, more));
  }

  lemma LeftListed(dir: Registry, index0: seq<Scored>, n: nat, index: seq<Scored>, e: nat, keys: seq<string>,
                   texts: iset<string>, more: seq<string>)
    requires n <= e <= |index0| && index == Keep(index0[n..], Off(dir, Members(index0[..n])))
    requires keys == Members(Keep(index0[n..e], Off(dir, Members(index0[..n]))))
    requires Texts(dir, more) == Texts(dir, Members(index0[..n])) + texts
    ensures Keep(Keep(index, KeySet(keys)), texts) == Keep(index0, KeySet(Members(index0[..e])) + Texts(dir, more))
  {
    var done := Members(index0[..n]);
    var off, s := Off(dir, done), KeySet(keys) + texts;
    KeepTwice(index, KeySet(keys), texts);
    KeepTwice(index0[n..], off, s);
    PollOff(dir, index0, n, e, keys);
    Rearranged(off, KeySet(keys), texts, KeySet(Members(index0[..e])), Texts(dir, done));
    HeadOff(index0, n, off + s);
  }

  lemma Rearranged(off: iset<string>, keys: iset<string>, texts: iset<string>, due: iset<string>, before: iset<string>)
    requires off + keys == due + before
    ensures off + (keys + texts) == due + (before + texts)
  {
  }

  // ---- Steps of a run, as its methods take them ----

  /** One more key: its queue is drained, and off the index if it held anything. */
  lemma KeyDone(dir: Registry, keys: seq<string>, n: nat, c0: map<QueueId, seq<Item>>, c: map<QueueId, seq<Item>>,
                q: QueueId, c': map<QueueId, seq<Item>>)
    requires n < |keys| && Resolve(dir, keys[n]) == Some(q) && Drained(dir, keys[..n], c0, c)
    requires ItemsIn(c', q) == [] && forall k: QueueId :: k != q ==> ItemsIn(c', k) == ItemsIn(c, k)
    ensures Drained(dir, keys[..n + 1], c0, c') && Adds(dir, keys[..n], [keys[n]], keys[..n + 1])
  {
    assert keys[..n + 1] == keys[..n] + [keys[n]];
    forall k ensures Target(dir, keys[..n + 1], k) <==> Target(dir, keys[..n], k) || Target(dir, [keys[n]], k) {
      TargetConcat(dir, keys[..n], [keys[n]], k);
    }
    OnlyTarget(dir, keys[n], q);
    forall k: QueueId ensures ItemsIn(c', k) == if Target(dir, keys[..n + 1], k) then [] else ItemsIn(c0, k) {
      assert ItemsIn(c, k) == if Target(dir, keys[..n], k) then [] else ItemsIn(c0, k);
    }
  }

  lemma OnlyTarget(dir: Registry, key: string, q: QueueId)
    requires Resolve(dir, key) == Some(q)
    ensures forall k :: Target(dir, [key], k) <==> k == q
    ensures Texts(dir, [key]) == iset{KeyText(q)}
  {
    assert key in [key];
  }

  lemma KeyOff(dir: Registry, keys: seq<string>, n: nat, index0: seq<Scored>, index: seq<Scored>,
               c: map<QueueId, seq<Item>>, q: QueueId, c': map<QueueId, seq<Item>>)
    requires n < |keys| && Resolve(dir, keys[n]) == Some(q) && Adds(dir, keys[..n], [keys[n]], keys[..n + 1])
    requires index == Keep(index0, Texts(dir, keys[..n])) && ListedHold(index, c)
    requires ItemsIn(c', q) == [] && forall k: QueueId :: k != q ==> ItemsIn(c', k) == ItemsIn(c, k)
    ensures var index' := if ItemsIn(c, q) == [] then index else ZRem(index, KeyText(q));
      index' == Keep(index0, Texts(dir, keys[..n + 1])) && ListedHold(index', c')
  {
    OnlyTarget(dir, keys[n], q);
    TextsOfMore(dir, keys[..n], [keys[n]], keys[..n + 1]);
    KeepTwice(index0, Texts(dir, keys[..n]), iset{KeyText(q)});
    RemIsKeep(index, KeyText(q));
    KeepMembers(index, iset{KeyText(q)});
    if ItemsIn(c, q) == [] {
      assert q.kind == UserQueue && !HasMember(index, KeyText(q));
      forall e | e in index ensures e.member !in iset{KeyText(q)} { MemberOf(index, KeyText(q)); }
      KeepAll(index, iset{KeyText(q)});
    }
    ListedWithout(index, c, q, c');
  }

  lemma ListedWithout(index: seq<Scored>, c: map<QueueId, seq<Item>>, q: QueueId, c': map<QueueId, seq<Item>>)
    requires ListedHold(index, c) && forall k: QueueId :: k != q ==> ItemsIn(c', k) == ItemsIn(c, k)
    ensures ListedHold(ZRem(index, KeyText(q)), c')
  {
    RemovedMembers(index, KeyText(q));
    forall k: QueueId | k.kind == UserQueue && HasMember(ZRem(index, KeyText(q)), KeyText(k))
      ensures ItemsIn(c', k) != []
    {
      assert HasMember(index, KeyText(k));
    }
  }

  lemma PolledHold(index: seq<Scored>, c: map<QueueId, seq<Item>>, off: iset<string>)
    requires ListedHold(index, c)
    ensures ListedHold(Keep(index, off), c)
  {
    KeepMembers(index, off);
    forall k: QueueId | k.kind == UserQueue && HasMember(Keep(index, off), KeyText(k)) ensures ItemsIn(c, k) != [] {
      MemberOf(Keep(index, off), KeyText(k));
      MemberOf(index, KeyText(k));
    }
  }

  lemma ReachedLater(dir: Registry, index0: seq<Scored>, c0: map<QueueId, seq<Item>>, index: seq<Scored>,
                     c: map<QueueId, seq<Item>>, limit: nat, limit': nat, n: nat)
    requires Reached(dir, index0, c0, index, c, limit, n) && limit <= limit'
    ensures Reached(dir, index0, c0, index, c, limit', n)
  {
  }
}
