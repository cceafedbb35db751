/** The store and the queue operations on it, command by command. The methods without a
    receiver work on the structures of one queue; class Redis keeps all queues. */
module RedisQueues {
  import opened Bincode
  import opened Limits
  import opened Chunks
  import opened SortedSet
  import opened Entries
  import opened QueueKeys
  import Cutting

  // ---- Specifications on the list ----

  function TakeItem(items: seq<Item>, amount: nat): seq<Item> {
    if items == [] then items
    else if amount < |items[0].bytes| then UpdateItem(items, 0, items[0].bytes[amount..])
    else items[1..]
  }

  function UpdateItem(items: seq<Item>, i: nat, value: seq<Byte>): seq<Item>
    requires i < |items|
  {
    items[i := items[i].(bytes := value, order := items[i].order - 1)]
  }

  lemma TakeItemIsTakeBytes(items: seq<Item>, amount: nat)
    ensures Pendings(TakeItem(items, amount)) == Cutting.TakeBytes(Pendings(items), amount).rest
  {
    if items != [] { assert Pendings(items)[1..] == Pendings(items[1..]); }
  }

  // ---- Reading an entry ----

  method GetFieldMetadata(entry: string, ghost item: Item) returns (id: Option<nat>)
    requires entry == Entry(item).member
    ensures id == Some(item.id)
  {
    EntryRoundTrip(item.id, item.bytes, item.order);
    id := EntryId(entry);
  }

  method GetOrderMetadata(entry: string, ghost item: Item) returns (order: Option<int>)
    requires entry == Entry(item).member
    ensures order == Some(item.order)
  {
    EntryRoundTrip(item.id, item.bytes, item.order);
    order := EntryOrder(entry);
  }

  method DecodeBytes(entry: string, ghost item: Item) returns (value: Option<seq<Byte>>)
    requires entry == Entry(item).member
    ensures value == Some(item.bytes)
  {
    EntryRoundTrip(item.id, item.bytes, item.order);
    value := EntryBytes(entry);
  }

  // ---- One queue ----

  /** Adds a value under its guid at the end, or finds the guid there. A guid spelled like
      the counter field breaks this: on a non-empty queue the value is dropped and the
      counter comes back as its id, and an empty queue is left inconsistent. Callers pass
      fresh UUIDs. */
  method InsertEntry(d: QueueData, ghost items: seq<Item>, guid: string, value: seq<Byte>, ghost now: nat)
    returns (d': QueueData, id: nat, added: bool)
    requires Complete(d, items)
    ensures !added ==> d' == d
    ensures guid != COUNTER ==> (added <==> !HasGuid(items, guid))
    ensures guid != COUNTER && !added ==> exists i :: 0 <= i < |items| && items[i].guid == guid && items[i].id == id
    ensures guid != COUNTER && added ==> (id == CounterOf(d) + 1 == CounterOf(d')
                                          && Complete(d', items + [Item(guid, id, value, 0, now)]))
    ensures guid == COUNTER && items != [] ==> !added && id == CounterOf(d)
    ensures guid == COUNTER && items == [] ==> forall any: seq<Item> :: !Complete(d', any)
  {
    d' := d;
    if guid in d.metadata {
      return d, d.metadata[guid], false;
    }
    if guid != COUNTER { InsertRepresents(d, items, guid, value, now); }
    id := (if COUNTER in d.metadata then d.metadata[COUNTER] else 0) + 1;
    d' := d'.(metadata := d'.metadata[COUNTER := id]);
    d' := d'.(zset := ZAddNX(d'.zset, id, EntryText(id, value, 0)));
    d' := d'.(metadata := d'.metadata[guid := id]);
    d' := d'.(reverse := d'.reverse[id := guid]);
    added := true;
    if guid == COUNTER { CounterClash(d', id); }
  }

  lemma CounterClash(d: QueueData, id: nat)
    requires d.reverse == map[id := COUNTER] && |d.zset| == 1
    ensures forall any: seq<Item> :: !Complete(d, any)
  {
    forall any: seq<Item> ensures !Complete(d, any) {
      if |any| == 1 {
        assert any[0].guid == COUNTER ==> HasGuid(any, COUNTER);
        assert any[0].id in d.reverse && d.reverse[any[0].id] == any[0].guid ==> any[0].guid == COUNTER;
      }
    }
  }

  /** One round of the removal loop. */
  method RemoveEntry(d: QueueData, ghost items: seq<Item>, guid: string)
    returns (d': QueueData, value: Option<seq<Byte>>)
    requires Represents(d, items) && guid != COUNTER
    ensures var i := IndexOf(items, guid);
      && CounterOf(d') == CounterOf(d)
      && if i < |items| then value == Some(items[i].bytes) && Represents(d', RemoveAt(items, i))
         else value == None && d' == d
  {
    ghost var i := IndexOf(items, guid);
    if guid !in d.metadata {
      return d, None;
    }
    assert HasGuid(items, guid);
    var id := d.metadata[guid];
    assert items[i].guid == guid;
    RemoveRepresents(d, items, i);
    var values := Limit(ZRangeByScore(d.zset, id, id), 1);
    d' := d.(zset := ZRemRangeByScore(d.zset, id, id));
    d' := d'.(metadata := d'.metadata - {guid});
    d' := d'.(reverse := d'.reverse - {id});
    value := DecodeBytes(values[0].member, items[i]);
  }

  /** Removes the given guids where present and returns their values. A queue left empty
      loses its counter. */
  method RemoveEntries(d: QueueData, ghost items: seq<Item>, guids: seq<string>)
    returns (d': QueueData, removed: seq<seq<Byte>>)
    requires Complete(d, items) && COUNTER !in guids
    ensures Complete(d', RemoveGuids(items, guids).rest)
    ensures removed == RemoveGuids(items, guids).values
    ensures CounterOf(d') == if RemoveGuids(items, guids).rest == [] then 0 else CounterOf(d)
  {
    d', removed := d, [];
    ghost var left := items;
    assert guids[0..] == guids;
    for n := 0 to |guids|
      invariant Represents(d', left) && CounterOf(d') == CounterOf(d)
      invariant Prepend(removed, RemoveGuids(left, guids[n..])) == RemoveGuids(items, guids)
    {
      assert guids[n] in guids;
      RemovalStep(left, guids, n, removed);
      var value;
      ghost var i := IndexOf(left, guids[n]);
      d', value := RemoveEntry(d', left, guids[n]);
      if value.Some? {
        removed := removed + [value.value];
        left := RemoveAt(left, i);
      }
    }
    assert guids[|guids|..] == [] && removed + [] == removed;
    if |d'.zset| == 0 {
      d' := d'.(zset := [], metadata := map[]);
    }
  }

  function Prepend(values: seq<seq<Byte>>, r: Removal): Removal {
    Removal(r.rest, values + r.values)
  }

  lemma RemovalStep(left: seq<Item>, guids: seq<string>, n: nat, removed: seq<seq<Byte>>)
    requires n < |guids|
    ensures var i := IndexOf(left, guids[n]);
      Prepend(removed, RemoveGuids(left, guids[n..])) ==
        if i == |left| then Prepend(removed, RemoveGuids(left, guids[n + 1..]))
        else Prepend(removed + [left[i].bytes], RemoveGuids(RemoveAt(left, i), guids[n + 1..]))
  {
    assert guids[n..][0] == guids[n] && guids[n..][1..] == guids[n + 1..];
    var i := IndexOf(left, guids[n]);
    if i < |left| {
      var more := RemoveGuids(RemoveAt(left, i), guids[n + 1..]).values;
      assert removed + ([left[i].bytes] + more) == removed + [left[i].bytes] + more;
    }
  }

  /** The first page of entries with their guids. */
  method ReadPage(d: QueueData, ghost items: seq<Item>) returns (values: seq<string>, guids: seq<string>)
    requires d.zset == EntriesOf(items) && ReverseReads(d.reverse, items)
    ensures var n := if |items| <= PAGE_SIZE then |items| else PAGE_SIZE;
      && guids == Guids(items[..n])
      && values == Members(EntriesOf(items)[..n])
  {
    var page := Limit(d.zset, PAGE_SIZE);
    values, guids := [], [];
    for n := 0 to |page|
      invariant values == Members(page[..n])
      invariant guids == Guids(items[..n])
    {
      var guid := GuidOfEntry(d.reverse, page[n], items, n);
      OneMore(page, items, n);
      values, guids := values + [page[n].member], guids + [guid];
    }
  }

  lemma OneMore(z: seq<Scored>, items: seq<Item>, n: nat)
    requires n < |z| && n < |items|
    ensures Members(z[..n + 1]) == Members(z[..n]) + [z[n].member]
    ensures Guids(items[..n + 1]) == Guids(items[..n]) + [items[n].guid]
  {
  }

  function Members(z: seq<Scored>): (m: seq<string>)
    ensures |m| == |z| && forall i :: 0 <= i < |z| ==> m[i] == z[i].member
  {
    seq(|z|, i requires 0 <= i < |z| => z[i].member)
  }

  method GuidOfEntry(reverse: map<nat, string>, entry: Scored, ghost items: seq<Item>, ghost n: nat)
    returns (guid: string)
    requires n < |items| && entry == Entry(items[n]) && ReverseReads(reverse, items)
    ensures guid == items[n].guid
  {
    var id := GetFieldMetadata(entry.member, items[n]);
    guid := if id.value in reverse then reverse[id.value] else "";
  }

  /** Rewrites the entry with this id in place, one label down, and returns the old label. */
  method UpdateValue(d: QueueData, ghost items: seq<Item>, id: nat, value: seq<Byte>)
    returns (d': QueueData, order: Option<int>)
    requires Complete(d, items)
    ensures order.None? <==> !HasId(items, id)
    ensures order.None? ==> d' == d
    ensures forall i :: 0 <= i < |items| && items[i].id == id ==>
      order == Some(items[i].order) && Complete(d', UpdateItem(items, i, value)) && CounterOf(d') == CounterOf(d)
  {
    d' := d;
    var found := ZRangeByScore(d.zset, id, id);
    if found == [] {
      order := None;
      if HasId(items, id) {
        ghost var j :| 0 <= j < |items| && items[j].id == id;
        RemoveZset(items, j);
      }
      return;
    }
    ghost var i := EntryWithScore(items, id);
    UpdateFound(d, items, i, value);
    var shorter := ZRem(d.zset, found[0].member);
    order := GetOrderMetadata(found[0].member, items[i]);
    var (zset, added) := ZAdd(shorter, id, EntryText(id, value, order.value - 1));
    d' := d.(zset := zset);
  }

  lemma UpdateFound(d: QueueData, items: seq<Item>, i: nat, value: seq<Byte>)
    requires Complete(d, items) && i < |items|
    ensures ZAdd(ZRem(d.zset, Entry(items[i]).member), items[i].id, EntryText(items[i].id, value, items[i].order - 1)).0
      == EntriesOf(UpdateItem(items, i, value))
    ensures Complete(d.(zset := EntriesOf(UpdateItem(items, i, value))), UpdateItem(items, i, value))
    ensures forall j :: 0 <= j < |items| && items[j].id == items[i].id ==> j == i
  {
    UpdateZset(items, i, value, items[i].order - 1);
    UpdateRepresents(d, items, i, value, items[i].order - 1);
  }

  lemma EntryWithScore(items: seq<Item>, id: nat) returns (i: nat)
    requires IdsRise(items) && ZRangeByScore(EntriesOf(items), id, id) != []
    ensures i < |items| && items[i].id == id && ZRangeByScore(EntriesOf(items), id, id) == [Entry(items[i])]
  {
    var z := EntriesOf(items);
    var found := ZRangeByScore(z, id, id);
    RangeMembers(z, id, id);
    assert found[0] in found;
    i :| 0 <= i < |items| && z[i] == found[0];
    RemoveZset(items, i);
  }

  // ---- All queues ----

  function ItemsIn(contents: map<QueueId, seq<Item>>, k: QueueId): seq<Item> {
    if k in contents then contents[k] else []
  }

  function DataIn(queues: map<QueueId, QueueData>, k: QueueId): QueueData {
    if k in queues then queues[k] else EMPTY_QUEUE
  }

  ghost predicate CompleteAt(queues: map<QueueId, QueueData>, contents: map<QueueId, seq<Item>>, k: QueueId) {
    Complete(DataIn(queues, k), ItemsIn(contents, k))
  }

  ghost predicate AllComplete(queues: map<QueueId, QueueData>, contents: map<QueueId, seq<Item>>) {
    forall k: QueueId :: CompleteAt(queues, contents, k)
  }

  function IndexIn(indexes: map<Kind, seq<Scored>>, kind: Kind): seq<Scored> {
    if kind in indexes then indexes[kind] else []
  }

  /** The index of a queue's kind lists its key only while it holds something, and does so
      whenever it holds something unless a persister polls queues of the kind. */
  ghost predicate ListedRight(indexes: map<Kind, seq<Scored>>, contents: map<QueueId, seq<Item>>, k: QueueId) {
    && (HasMember(IndexIn(indexes, k.kind), KeyText(k)) ==> ItemsIn(contents, k) != [])
    && (k.kind != UserQueue && ItemsIn(contents, k) != [] ==> HasMember(IndexIn(indexes, k.kind), KeyText(k)))
  }

  ghost predicate AllListedRight(indexes: map<Kind, seq<Scored>>, contents: map<QueueId, seq<Item>>) {
    && (forall k: QueueId {:trigger ListedRight(indexes, contents, k)} :: ListedRight(indexes, contents, k))
    && (forall kind: Kind {:trigger SortedAt(indexes, kind)} :: SortedAt(indexes, kind))
  }

  ghost predicate SortedAt(indexes: map<Kind, seq<Scored>>, kind: Kind) {
    Sorted(IndexIn(indexes, kind))
  }

  /** The index of k's kind after queue k has come to hold items, listed since now if new. */
  function AfterPut(indexes: map<Kind, seq<Scored>>, k: QueueId, now: nat): map<Kind, seq<Scored>> {
    indexes[k.kind := ZAddNX(IndexIn(indexes, k.kind), now, KeyText(k))]
  }

  function AfterEmptied(indexes: map<Kind, seq<Scored>>, k: QueueId): map<Kind, seq<Scored>> {
    indexes[k.kind := ZRem(IndexIn(indexes, k.kind), KeyText(k))]
  }

  lemma PutListed(indexes: map<Kind, seq<Scored>>, contents: map<QueueId, seq<Item>>, k: QueueId, items: seq<Item>,
                  now: nat)
    requires AllListedRight(indexes, contents) && items != []
    ensures AllListedRight(AfterPut(indexes, k, now), contents[k := items])
  {
    var indexes', contents' := AfterPut(indexes, k, now), contents[k := items];
    AddedMembers(IndexIn(indexes, k.kind), now, KeyText(k));
    if SortedAt(indexes, k.kind) { AddSorted(IndexIn(indexes, k.kind), now, KeyText(k)); }
    forall j: QueueId ensures ListedRight(indexes', contents', j) {
      assert ListedRight(indexes, contents, j);
      KeyTextInjective(j, k);
    }
    OneIndexSorted(indexes, indexes', k.kind);
  }

  /** Every index but one is as it was. */
  lemma OneIndexSorted(indexes: map<Kind, seq<Scored>>, indexes': map<Kind, seq<Scored>>, kind: Kind)
    requires forall j: Kind {:trigger SortedAt(indexes, j)} :: SortedAt(indexes, j)
    requires SortedAt(indexes, kind) ==> SortedAt(indexes', kind)
    requires indexes' == indexes[kind := IndexIn(indexes', kind)]
    ensures forall j: Kind {:trigger SortedAt(indexes', j)} :: SortedAt(indexes', j)
  {
    forall j: Kind ensures SortedAt(indexes', j) { assert SortedAt(indexes, j); }
  }

  lemma EmptiedListed(indexes: map<Kind, seq<Scored>>, contents: map<QueueId, seq<Item>>, k: QueueId)
    requires AllListedRight(indexes, contents)
    ensures AllListedRight(AfterEmptied(indexes, k), contents[k := []])
  {
    var indexes', contents' := AfterEmptied(indexes, k), contents[k := []];
    RemovedMembers(IndexIn(indexes, k.kind), KeyText(k));
    if SortedAt(indexes, k.kind) { RemSorted(IndexIn(indexes, k.kind), KeyText(k)); }
    forall j: QueueId ensures ListedRight(indexes', contents', j) {
      assert ListedRight(indexes, contents, j);
      KeyTextInjective(j, k);
    }
    OneIndexSorted(indexes, indexes', k.kind);
  }

  /** A queue that stays non-empty keeps its place in the index. */
  lemma ChangedListed(indexes: map<Kind, seq<Scored>>, contents: map<QueueId, seq<Item>>, k: QueueId, items: seq<Item>)
    requires AllListedRight(indexes, contents) && (items == [] <==> ItemsIn(contents, k) == [])
    ensures AllListedRight(indexes, contents[k := items])
  {
    var contents' := contents[k := items];
    forall j: QueueId ensures ListedRight(indexes, contents', j) {
      assert ListedRight(indexes, contents, j);
    }
  }

  lemma PolledListed(indexes: map<Kind, seq<Scored>>, contents: map<QueueId, seq<Item>>, index: seq<Scored>)
    requires AllListedRight(indexes, contents) && Sorted(index)
    requires forall e :: e in index ==> e in IndexIn(indexes, UserQueue)
    ensures AllListedRight(indexes[UserQueue := index], contents)
  {
    var indexes' := indexes[UserQueue := index];
    forall j: QueueId ensures ListedRight(indexes', contents, j) {
      assert ListedRight(indexes, contents, j);
      MemberOf(index, KeyText(j));
      MemberOf(IndexIn(indexes, UserQueue), KeyText(j));
    }
    OneIndexSorted(indexes, indexes', UserQueue);
  }

  lemma RemovedListed(indexes: map<Kind, seq<Scored>>, contents: map<QueueId, seq<Item>>, k: QueueId,
                      guids: seq<string>)
    requires AllListedRight(indexes, contents)
    ensures var rest := RemoveGuids(ItemsIn(contents, k), guids).rest;
      AllListedRight(if rest == [] then AfterEmptied(indexes, k) else indexes, contents[k := rest])
  {
    var rest := RemoveGuids(ItemsIn(contents, k), guids).rest;
    RemovalKeeps(ItemsIn(contents, k), guids);
    if rest == [] {
      EmptiedListed(indexes, contents, k);
    } else {
      assert rest[0] in ItemsIn(contents, k);
      ChangedListed(indexes, contents, k, rest);
    }
  }

  lemma CommitKeeps(queues: map<QueueId, QueueData>, contents: map<QueueId, seq<Item>>,
                    k: QueueId, d: QueueData, items: seq<Item>)
    requires AllComplete(queues, contents) && Complete(d, items)
    ensures AllComplete(queues[k := d], contents[k := items])
  {
    var queues', contents' := queues[k := d], contents[k := items];
    forall j: QueueId ensures CompleteAt(queues', contents', j) {
      assert CompleteAt(queues, contents, j);
    }
  }

  lemma ReadComplete(queues: map<QueueId, QueueData>, contents: map<QueueId, seq<Item>>, k: QueueId)
    requires AllComplete(queues, contents)
    ensures Complete(DataIn(queues, k), ItemsIn(contents, k))
  {
    assert CompleteAt(queues, contents, k);
  }

  lemma ReadListed(queues: map<QueueId, QueueData>, contents: map<QueueId, seq<Item>>, k: QueueId)
    requires AllComplete(queues, contents)
    ensures WellListed(ItemsIn(contents, k)) && DataIn(queues, k).zset == EntriesOf(ItemsIn(contents, k))
  {
    ReadComplete(queues, contents, k);
  }

  class Redis {
    /** Per queue: the sorted set and the two hashes. */
    var queues: map<QueueId, QueueData>
    /** Per kind: which queues are non-empty, scored by the time they became so. */
    var indexes: map<Kind, seq<Scored>>
    /** Queues whose persisting key is set. */
    var locks: set<QueueId>
    /** The abstract value: what each queue holds. */
    ghost var contents: map<QueueId, seq<Item>>

    ghost predicate Valid()
      reads this
    {
      AllComplete(queues, contents) && AllListedRight(indexes, contents)
    }

    function Data(k: QueueId): QueueData
      reads this
    {
      DataIn(queues, k)
    }

    function Index(kind: Kind): seq<Scored>
      reads this
    {
      IndexIn(indexes, kind)
    }

    ghost function Items(k: QueueId): seq<Item>
      reads this
    {
      ItemsIn(contents, k)
    }

    /** The byte queue a reader sees: nothing while the queue is locked. */
    ghost function Seen(k: QueueId): seq<Cutting.Pending>
      reads this
    {
      if k in locks then [] else Pendings(Items(k))
    }

    constructor ()
      ensures Valid() && contents == map[] && indexes == map[] && locks == {}
    {
      queues, indexes, locks, contents := map[], map[], {}, map[];
    }

    /** A guid spelled like the counter field is the one input that is not handled: its
        value is dropped, or an empty queue is left that represents no list at all. */
    method Insert(k: QueueId, guid: string, value: seq<Byte>, now: nat) returns (id: nat)
      requires Valid()
      modifies this
      ensures Valid() <==> guid != COUNTER || old(Items(k)) != []
      ensures locks == old(locks)
      ensures guid != COUNTER && old(HasGuid(Items(k), guid)) ==>
        && (exists i :: 0 <= i < |old(Items(k))| && old(Items(k))[i].guid == guid && old(Items(k))[i].id == id)
        && contents == old(contents) && indexes == old(indexes)
      ensures guid != COUNTER && !old(HasGuid(Items(k), guid)) ==>
        && id == old(CounterOf(Data(k))) + 1 == CounterOf(Data(k))
        && contents == old(contents)[k := old(Items(k)) + [Item(guid, id, value, 0, now)]]
        && indexes == AfterPut(old(indexes), k, now)
      ensures guid == COUNTER && old(Items(k)) != [] ==>
        id == old(CounterOf(Data(k))) && contents == old(contents) && indexes == old(indexes)
    {
      ReadComplete(queues, contents, k);
      ghost var items := Items(k);
      var d, added;
      d, id, added := InsertEntry(Data(k), items, guid, value, now);
      if added {
        ghost var items' := if guid == COUNTER then items else items + [Item(guid, id, value, 0, now)];
        if guid != COUNTER {
          CommitKeeps(queues, contents, k, d, items');
          PutListed(indexes, contents, k, items', now);
        }
        queues := queues[k := d];
        indexes := AfterPut(indexes, k, now);
        contents := contents[k := items'];
        assert guid == COUNTER ==> !CompleteAt(queues, contents, k);
      }
    }

    /** A queue left empty disappears with its counter and its index entry. */
    method Remove(k: QueueId, guids: seq<string>) returns (removed: seq<seq<Byte>>)
      requires Valid() && COUNTER !in guids
      modifies this
      ensures Valid() && locks == old(locks)
      ensures removed == RemoveGuids(old(Items(k)), guids).values
      ensures contents == old(contents)[k := RemoveGuids(old(Items(k)), guids).rest]
      ensures CounterOf(Data(k)) == if Items(k) == [] then 0 else old(CounterOf(Data(k)))
      ensures indexes == if Items(k) == [] then AfterEmptied(old(indexes), k) else old(indexes)
    {
      ReadComplete(queues, contents, k);
      ghost var items := Items(k);
      var d;
      d, removed := RemoveEntries(Data(k), items, guids);
      ghost var rest := RemoveGuids(items, guids).rest;
      CommitKeeps(queues, contents, k, d, rest);
      RemovedListed(indexes, contents, k, guids);
      assert |d.zset| == |rest|;
      queues := queues[k := d];
      contents := contents[k := rest];
      if |d.zset| == 0 {
        indexes := AfterEmptied(indexes, k);
      }
    }

    /** Nothing is read while the queue is locked. */
    method GetValues(k: QueueId) returns (values: seq<string>, guids: seq<string>)
      requires Valid()
      ensures var n := if |Items(k)| <= 100 then |Items(k)| else 100;
        if k in locks then values == [] && guids == []
        else && guids == Guids(Items(k)[..n])
             && values == Members(EntriesOf(Items(k))[..n])
    {
      if k in locks { return [], []; }
      ReadComplete(queues, contents, k);
      values, guids := ReadPage(Data(k), Items(k));
    }

    method GetFirst(k: QueueId) returns (first: Option<string>)
      requires Valid()
      ensures first == if k in locks || Items(k) == [] then None else Some(Entry(Items(k)[0]).member)
    {
      ReadComplete(queues, contents, k);
      first := if k in locks || Data(k).zset == [] then None else Some(Data(k).zset[0].member);
    }

    /** Takes up to amount bytes off the head: part of it, or the whole value. An empty or
        locked queue yields a dummy and no bytes. The operation never fails. */
    method DequeueBytes(k: QueueId, amount: nat) returns (taken: Option<(seq<Byte>, nat, int)>)
      requires Valid()
      modifies this
      ensures Valid() && locks == old(locks)
      ensures var t := Cutting.TakeBytes(old(Seen(k)), amount);
        taken == Some((t.data, |t.data|, t.flags)) && Seen(k) == t.rest
      ensures Items(k) == if k in locks then old(Items(k)) else TakeItem(old(Items(k)), amount)
      ensures forall j :: j != k ==> Items(j) == old(Items(j))
      ensures indexes == if old(Items(k)) != [] && Items(k) == [] then AfterEmptied(old(indexes), k) else old(indexes)
    {
      ghost var items := Items(k);
      TakeItemIsTakeBytes(items, amount);
      var first := GetFirst(k);
      if first.None? { return Some(([], 0, ToFlags(Dummy))); }
      var id := GetFieldMetadata(first.value, items[0]);
      var value := DecodeBytes(first.value, items[0]);
      if amount < |value.value| {
        taken := TakePart(k, items, id.value, value.value, amount);
      } else {
        taken := TakeWhole(k, items, id.value);
      }
    }

    /** The head is longer than what is asked for. */
    method TakePart(k: QueueId, ghost items: seq<Item>, id: nat, value: seq<Byte>, amount: nat)
      returns (taken: Option<(seq<Byte>, nat, int)>)
      requires Valid() && items == Items(k) && items != []
      requires id == items[0].id && value == items[0].bytes && amount < |value|
      modifies this
      ensures Valid() && locks == old(locks) && indexes == old(indexes)
      ensures taken == Some((value[..amount], amount, items[0].order))
      ensures contents == old(contents)[k := UpdateItem(items, 0, value[amount..])]
    {
      ReadComplete(queues, contents, k);
      var d, order := UpdateValue(Data(k), items, id, value[amount..]);
      assert items[0].id == id;
      if order.None? { return None; }
      CommitKeeps(queues, contents, k, d, UpdateItem(items, 0, value[amount..]));
      ChangedListed(indexes, contents, k, UpdateItem(items, 0, value[amount..]));
      queues := queues[k := d];
      contents := contents[k := UpdateItem(items, 0, value[amount..])];
      taken := Some((value[..amount], amount, order.value));
    }

    /** The head goes out whole. */
    method TakeWhole(k: QueueId, ghost items: seq<Item>, id: nat) returns (taken: Option<(seq<Byte>, nat, int)>)
      requires Valid() && items == Items(k) && items != [] && id == items[0].id
      modifies this
      ensures Valid() && locks == old(locks)
      ensures taken == Some((items[0].bytes, |items[0].bytes|, ToFlags(Final)))
      ensures contents == old(contents)[k := items[1..]]
      ensures indexes == if Items(k) == [] then AfterEmptied(old(indexes), k) else old(indexes)
    {
      ReadComplete(queues, contents, k);
      if id !in Data(k).reverse { return None; }
      var guid := Data(k).reverse[id];
      assert [guid] == Guids(items[..1]);
      RemovePrefix(items, 1);
      var removed := Remove(k, [guid]);
      assert removed == [items[0].bytes];
      taken := Some((removed[0], |removed[0]|, ToFlags(Final)));
    }

    /** Whoever reads the queue finds it empty until it is unlocked. */
    method Lock(k: QueueId)
      modifies `locks
      ensures locks == old(locks) + {k}
      ensures Seen(k) == [] && forall j :: j != k ==> Seen(j) == old(Seen(j))
    {
      locks := locks + {k};
    }

    method Unlock(k: QueueId)
      modifies `locks
      ensures locks == old(locks) - {k}
      ensures Seen(k) == Pendings(Items(k)) && forall j :: j != k ==> Seen(j) == old(Seen(j))
    {
      locks := locks - {k};
    }
  }
}
