/** Ordinary messages in the store and in the database. */
module MessageCache {
  import opened Bincode
  import opened SortedSet
  import opened Entries
  import opened QueueKeys
  import opened RedisQueues
  import opened Indexes

  /** An envelope: its server guid and everything else. */
  datatype Mail = Mail(guid: string, body: seq<Byte>)

  function MailQueue(name: string, device: nat): QueueId { QueueId(UserQueue, name, device) }

  /** The items are the serialized envelopes, each under its own guid. */
  ghost predicate HoldMails(codec: Codec<Mail>, items: seq<Item>, mails: seq<Mail>) {
    |items| == |mails| && forall i :: 0 <= i < |items| ==>
      items[i].bytes == codec.enc(mails[i]) && items[i].guid == mails[i].guid
  }

  ghost predicate MailAt(codec: Codec<Mail>, contents: map<QueueId, seq<Item>>, k: QueueId) {
    HoldMails(codec, ItemsIn(contents, k), Mails(codec, ItemsIn(contents, k)))
  }

  /** Every user queue holds envelopes. */
  ghost predicate AllMail(codec: Codec<Mail>, contents: map<QueueId, seq<Item>>) {
    forall k: QueueId {:trigger MailAt(codec, contents, k)} :: k.kind == UserQueue ==> MailAt(codec, contents, k)
  }

  /** The envelopes a queue holds, read back. */
  function Mails(codec: Codec<Mail>, items: seq<Item>): (mails: seq<Mail>)
    ensures |mails| == |items|
    ensures forall i :: 0 <= i < |items| ==> mails[i] == ReadMail(codec, items[i].bytes)
  {
    seq(|items|, i requires 0 <= i < |items| => ReadMail(codec, items[i].bytes))
  }

  function ReadMail(codec: Codec<Mail>, bytes: seq<Byte>): Mail {
    var m := codec.dec(bytes);
    if m.None? then Mail("", []) else m.value
  }

  lemma PrefixMail(codec: Codec<Mail>, items: seq<Item>, n: nat)
    requires n <= |items|
    ensures Mails(codec, items[..n]) == Mails(codec, items)[..n] && Mails(codec, items[n..]) == Mails(codec, items)[n..]
    ensures HoldMails(codec, items, Mails(codec, items)) ==>
      HoldMails(codec, items[..n], Mails(codec, items)[..n]) && HoldMails(codec, items[n..], Mails(codec, items)[n..])
  {
  }

  /** Inserting keeps an index that is in step with the queues in step: a queue that becomes
      non-empty is scored with the time of its first message. A guid already there changes
      nothing. */
  method Insert(redis: Redis, codec: Codec<Mail>, name: string, device: nat, body: seq<Byte>, guid: string, now: nat)
    returns (id: nat)
    requires codec.RoundTrips() && redis.Valid() && AllMail(codec, redis.contents)
    requires guid != COUNTER
    modifies redis
    ensures redis.Valid() && AllMail(codec, redis.contents) && redis.locks == old(redis.locks)
    ensures old(Timely(redis.Index(UserQueue), redis.contents, now)) ==>
      Timely(redis.Index(UserQueue), redis.contents, now)
    ensures var k := MailQueue(name, device); var was := old(redis.Items(k));
      if HasGuid(was, guid) then redis.contents == old(redis.contents) && redis.indexes == old(redis.indexes)
      else
        && Mails(codec, redis.Items(k)) == Mails(codec, was) + [Mail(guid, body)]
        && redis.contents == old(redis.contents)[k := was + [Item(guid, id, codec.enc(Mail(guid, body)), 0, now)]]
        && redis.indexes == AfterPut(old(redis.indexes), k, now)
  {
    var k, mail := MailQueue(name, device), Mail(guid, body);
    ghost var items := redis.Items(k);
    id := redis.Insert(k, guid, codec.enc(mail), now);
    if !HasGuid(items, guid) {
      MailInserted(codec, old(redis.Index(UserQueue)), old(redis.contents), k, guid, id, body, now);
    }
  }

  /** The index is in step with the queues, and no score lies ahead of the clock. */
  ghost predicate Timely(index: seq<Scored>, contents: map<QueueId, seq<Item>>, now: nat) {
    IndexAgrees(index, contents, UserQueue, iset{}) && NotAhead(index, now)
  }

  lemma MailInserted(codec: Codec<Mail>, index: seq<Scored>, contents: map<QueueId, seq<Item>>, k: QueueId,
                     guid: string, id: nat, body: seq<Byte>, now: nat)
    requires codec.RoundTrips() && AllMail(codec, contents) && k.kind == UserQueue
    ensures var items' := ItemsIn(contents, k) + [Item(guid, id, codec.enc(Mail(guid, body)), 0, now)];
      var index' := ZAddNX(index, now, KeyText(k));
      && AllMail(codec, contents[k := items'])
      && Mails(codec, items') == Mails(codec, ItemsIn(contents, k)) + [Mail(guid, body)]
      && (Timely(index, contents, now) ==> Timely(index', contents[k := items'], now))
  {
    var mail := Mail(guid, body);
    var item := Item(guid, id, codec.enc(mail), 0, now);
    if Timely(index, contents, now) { InsertAgrees(index, contents, k, item); }
    assert ReadMail(codec, item.bytes) == mail;
    var contents' := contents[k := ItemsIn(contents, k) + [item]];
    forall j: QueueId | j.kind == UserQueue ensures MailAt(codec, contents', j) { assert MailAt(codec, contents, j); }
  }

  function FirstBatch(mails: seq<Mail>, limit: nat): seq<Mail> {
    if |mails| <= limit + 1 then mails else mails[..limit + 1]
  }

  /** The first messages of a queue, locked or not. The range includes its last index, so
      up to limit + 1 messages come back. */
  method GetMessagesToPersist(redis: Redis, codec: Codec<Mail>, name: string, device: nat, limit: nat)
    returns (mails: seq<Mail>)
    requires redis.Valid() && AllMail(codec, redis.contents)
    ensures mails == FirstBatch(Mails(codec, redis.Items(MailQueue(name, device))), limit)
    ensures var cached := Mails(codec, redis.Items(MailQueue(name, device)));
      mails <= cached && |mails| == if |cached| <= limit then |cached| else limit + 1
  {
    var k := MailQueue(name, device);
    ghost var items := redis.Items(k);
    ReadListed(redis.queues, redis.contents, k);
    mails := DecodeMails(codec, Limit(redis.Data(k).zset, limit + 1), items);
  }

  method DecodeMails(codec: Codec<Mail>, values: seq<Scored>, ghost items: seq<Item>) returns (mails: seq<Mail>)
    requires values <= EntriesOf(items)
    ensures mails == Mails(codec, items)[..|values|]
  {
    mails := [];
    for n := 0 to |values|
      invariant mails == Mails(codec, items)[..n]
    {
      assert values[n] == EntriesOf(items)[n];
      var bytes := DecodeBytes(values[n].member, items[n]);
      mails := mails + [ReadMail(codec, bytes.value)];
    }
  }

  /** The members of the first entries scored at most maxTime, by score and then by text. */
  ghost predicate PolledFrom(index: seq<Scored>, maxTime: nat, limit: nat, keys: seq<string>) {
    exists polled :: Members(polled) == keys && FirstOfRange(index, maxTime, limit, polled)
  }

  /** Takes up to limit of the queues not younger than maxTime off the index. */
  method GetQueuesToPersist(redis: Redis, maxTime: nat, limit: nat) returns (keys: seq<string>)
    requires redis.Valid() && limit > 0
    modifies redis`indexes
    ensures redis.Valid() && redis.contents == old(redis.contents)
    ensures keys == Members(Limit(ZRangeByScore(old(redis.Index(UserQueue)), 0, maxTime), limit))
    ensures PolledFrom(old(redis.Index(UserQueue)), maxTime, limit, keys)
    ensures redis.Index(UserQueue) == RemoveKeys(old(redis.Index(UserQueue)), keys)
    ensures forall kind :: kind != UserQueue ==> redis.Index(kind) == old(redis.Index(kind))
  {
    var index := redis.Index(UserQueue);
    assert SortedAt(redis.indexes, UserQueue);
    LimitIsFirst(index, maxTime, limit);
    keys := Members(Limit(ZRangeByScore(index, 0, maxTime), limit));
    if keys != [] {
      ghost var start := index;
      for n := 0 to |keys|
        invariant RemoveKeys(index, keys[n..]) == RemoveKeys(start, keys)
      {
        assert keys[n..][0] == keys[n] && keys[n..][1..] == keys[n + 1..];
        index := ZRem(index, keys[n]);
      }
      assert keys[|keys|..] == [];
      RemovedKeys(start, keys);
      PolledListed(redis.indexes, redis.contents, index);
      redis.indexes := redis.indexes[UserQueue := index];
    }
  }

  function RemoveKeys(index: seq<Scored>, keys: seq<string>): seq<Scored>
    decreases |keys|
  {
    if keys == [] then index else RemoveKeys(ZRem(index, keys[0]), keys[1..])
  }

  /** Taking keys off an index leaves it sorted and adds nothing. */
  lemma {:induction false} RemovedKeys(index: seq<Scored>, keys: seq<string>)
    ensures forall e :: e in RemoveKeys(index, keys) ==> e in index
    ensures Sorted(index) ==> Sorted(RemoveKeys(index, keys))
    decreases |keys|
  {
    if keys != [] {
      RemovedMembers(index, keys[0]);
      if Sorted(index) { RemSorted(index, keys[0]); }
      RemovedKeys(ZRem(index, keys[0]), keys[1..]);
    }
  }

  function StoredIn(mail: map<(string, nat), seq<Mail>>, name: string, device: nat): seq<Mail> {
    if (name, device) in mail then mail[(name, device)] else []
  }

  /** The database's message queues, in insertion order. */
  class Database {
    /** The devices with a row of their own. */
    const devices: set<(string, nat)>
    var mail: map<(string, nat), seq<Mail>>

    function Stored(name: string, device: nat): seq<Mail>
      reads this
    {
      StoredIn(mail, name, device)
    }

    constructor (devices: set<(string, nat)>)
      ensures this.devices == devices && mail == map[]
    {
      this.devices, mail := devices, map[];
    }

    /** A message for a device without a row is dropped without an error. */
    method Push(name: string, device: nat, m: Mail)
      modifies this
      ensures (name, device) in devices ==> mail == old(mail)[(name, device) := old(Stored(name, device)) + [m]]
      ensures (name, device) !in devices ==> mail == old(mail)
    {
      if (name, device) in devices {
        mail := mail[(name, device) := Stored(name, device) + [m]];
      }
    }
  }
}
