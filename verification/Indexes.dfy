/** The index of non-empty queues of one kind, and the ages it promises. */
module Indexes {
  import opened SortedSet
  import opened Entries
  import opened QueueKeys
  import opened RedisQueues

  /** The index lists exactly the non-empty queues, except those a poll has just taken off. */
  ghost predicate ListsAt(index: seq<Scored>, contents: map<QueueId, seq<Item>>, busy: iset<QueueId>, k: QueueId) {
    HasMember(index, KeyText(k)) <==> ItemsIn(contents, k) != [] && k !in busy
  }

  /** A queue's score is no later than any of its items. */
  ghost predicate AgesAt(index: seq<Scored>, contents: map<QueueId, seq<Item>>, k: QueueId) {
    forall i, j :: 0 <= i < |index| && index[i].member == KeyText(k) && 0 <= j < |ItemsIn(contents, k)| ==>
      index[i].score <= ItemsIn(contents, k)[j].insertedAt
  }

  ghost predicate KeyOf(kind: Kind, member: string) {
    exists k: QueueId :: k.kind == kind && member == KeyText(k)
  }

  ghost predicate IndexAgrees(index: seq<Scored>, contents: map<QueueId, seq<Item>>, kind: Kind, busy: iset<QueueId>) {
    && ByScore(index)
    && (forall k: QueueId {:trigger ListsAt(index, contents, busy, k)} :: k.kind == kind ==>
          ListsAt(index, contents, busy, k))
    && (forall k: QueueId {:trigger AgesAt(index, contents, k)} :: k.kind == kind ==> AgesAt(index, contents, k))
    && (forall e {:trigger e in index} :: e in index ==> KeyOf(kind, e.member))
  }

  /** No score lies ahead of the clock. */
  ghost predicate NotAhead(index: seq<Scored>, now: nat) {
    forall e {:trigger e in index} :: e in index ==> e.score <= now
  }

  lemma AgesFromMembers(index: seq<Scored>, contents: map<QueueId, seq<Item>>, k: QueueId)
    ensures AgesAt(index, contents, k) <==>
      forall e, j :: e in index && e.member == KeyText(k) && 0 <= j < |ItemsIn(contents, k)| ==>
        e.score <= ItemsIn(contents, k)[j].insertedAt
  {
    if AgesAt(index, contents, k) {
      forall e, j | e in index && e.member == KeyText(k) && 0 <= j < |ItemsIn(contents, k)|
        ensures e.score <= ItemsIn(contents, k)[j].insertedAt
      {
        var i :| 0 <= i < |index| && index[i] == e;
      }
    }
  }

  /** An insert under a clock that never runs back. */
  lemma InsertAgrees(index: seq<Scored>, contents: map<QueueId, seq<Item>>, k: QueueId, item: Item)
    requires IndexAgrees(index, contents, k.kind, iset{}) && NotAhead(index, item.insertedAt)
    ensures var index' := ZAddNX(index, item.insertedAt, KeyText(k));
      && IndexAgrees(index', contents[k := ItemsIn(contents, k) + [item]], k.kind, iset{})
      && NotAhead(index', item.insertedAt)
  {
    var now := item.insertedAt;
    var index', contents' := ZAddNX(index, now, KeyText(k)), contents[k := ItemsIn(contents, k) + [item]];
    AddedMembers(index, now, KeyText(k));
    forall j: QueueId | j.kind == k.kind ensures ListsAt(index', contents', iset{}, j) {
      assert ListsAt(index, contents, iset{}, j);
      KeyTextInjective(j, k);
    }
    forall j: QueueId | j.kind == k.kind ensures AgesAt(index', contents', j) {
      assert AgesAt(index, contents, j) && ListsAt(index, contents, iset{}, j);
      KeyTextInjective(j, k);
      AgesFromMembers(index, contents, j);
      forall e, n | e in index' && e.member == KeyText(j) && 0 <= n < |ItemsIn(contents', j)|
        ensures e.score <= ItemsIn(contents', j)[n].insertedAt
      {
        if e in index {
          if n < |ItemsIn(contents, j)| { assert ItemsIn(contents', j)[n] == ItemsIn(contents, j)[n]; }
        } else {
          assert ItemsIn(contents, k) == [];
        }
      }
      AgesFromMembers(index', contents', j);
    }
    forall e | e in index' ensures KeyOf(k.kind, e.member) {
      if e !in index { assert e.member == KeyText(k); }
    }
  }

  /** A removal from queue k, which leaves the index when it becomes empty. */
  lemma RemoveAgrees(index: seq<Scored>, contents: map<QueueId, seq<Item>>, busy: iset<QueueId>, k: QueueId,
                     rest: seq<Item>)
    requires IndexAgrees(index, contents, k.kind, busy)
    requires forall x :: x in rest ==> x in ItemsIn(contents, k)
    ensures var index' := if rest == [] then ZRem(index, KeyText(k)) else index;
      IndexAgrees(index', contents[k := rest], k.kind, if rest == [] then busy - iset{k} else busy)
  {
    var index', contents' := if rest == [] then ZRem(index, KeyText(k)) else index, contents[k := rest];
    var busy' := if rest == [] then busy - iset{k} else busy;
    RemovedMembers(index, KeyText(k));
    if rest != [] { assert rest[0] in ItemsIn(contents, k); }
    forall j: QueueId | j.kind == k.kind ensures ListsAt(index', contents', busy', j) {
      assert ListsAt(index, contents, busy, j);
      KeyTextInjective(j, k);
    }
    forall j: QueueId | j.kind == k.kind ensures AgesAt(index', contents', j) {
      assert AgesAt(index, contents, j);
      AgesFromMembers(index, contents, j);
      forall e, n | e in index' && e.member == KeyText(j) && 0 <= n < |ItemsIn(contents', j)|
        ensures e.score <= ItemsIn(contents', j)[n].insertedAt
      {
        var x := ItemsIn(contents', j)[n];
        assert x in ItemsIn(contents, j) by { if j == k { assert x in rest; } }
        var m :| 0 <= m < |ItemsIn(contents, j)| && ItemsIn(contents, j)[m] == x;
        assert e in index;
        assert e.score <= ItemsIn(contents, j)[m].insertedAt;
      }
      AgesFromMembers(index', contents', j);
    }
  }

  /** Taking bytes off the head keeps the insertion times of what is left. */
  lemma TakenItems(items: seq<Item>, amount: nat, n: nat)
    requires n < |TakeItem(items, amount)|
    ensures exists m :: 0 <= m < |items| && items[m].insertedAt == TakeItem(items, amount)[n].insertedAt
  {
    var m := if amount < |items[0].bytes| then n else n + 1;
    assert items[m].insertedAt == TakeItem(items, amount)[n].insertedAt;
  }

  /** A dequeue of bytes keeps index and queues in step: part of the head leaves the listing
      alone, and the last value takes the queue off the index. */
  lemma TakeAgrees(index: seq<Scored>, contents: map<QueueId, seq<Item>>, busy: iset<QueueId>, k: QueueId, amount: nat)
    requires IndexAgrees(index, contents, k.kind, busy) && ItemsIn(contents, k) != []
    ensures var rest := TakeItem(ItemsIn(contents, k), amount);
      var index' := if rest == [] then ZRem(index, KeyText(k)) else index;
      IndexAgrees(index', contents[k := rest], k.kind, if rest == [] then busy - iset{k} else busy)
  {
    var rest := TakeItem(ItemsIn(contents, k), amount);
    if rest == [] {
      RemoveAgrees(index, contents, busy, k, []);
    } else {
      var contents' := contents[k := rest];
      forall j: QueueId | j.kind == k.kind ensures ListsAt(index, contents', busy, j) && AgesAt(index, contents', j) {
        assert ListsAt(index, contents, busy, j) && AgesAt(index, contents, j);
        if j == k { TakeAges(index, contents, k, amount); }
      }
    }
  }

  lemma TakeAges(index: seq<Scored>, contents: map<QueueId, seq<Item>>, k: QueueId, amount: nat)
    requires AgesAt(index, contents, k)
    ensures AgesAt(index, contents[k := TakeItem(ItemsIn(contents, k), amount)], k)
  {
    var items := ItemsIn(contents, k);
    var rest := TakeItem(items, amount);
    forall i, n | 0 <= i < |index| && index[i].member == KeyText(k) && 0 <= n < |rest|
      ensures index[i].score <= rest[n].insertedAt
    {
      TakenItems(items, amount, n);
      var m :| 0 <= m < |items| && items[m].insertedAt == rest[n].insertedAt;
    }
  }

  /** A poll takes a queue off the index. */
  lemma PollAgrees(index: seq<Scored>, contents: map<QueueId, seq<Item>>, kind: Kind, busy: iset<QueueId>, k: QueueId)
    requires IndexAgrees(index, contents, kind, busy) && k.kind == kind
    ensures IndexAgrees(ZRem(index, KeyText(k)), contents, kind, busy + iset{k})
  {
    var index' := ZRem(index, KeyText(k));
    RemovedMembers(index, KeyText(k));
    forall j: QueueId | j.kind == kind ensures ListsAt(index', contents, busy + iset{k}, j) {
      assert ListsAt(index, contents, busy, j);
      KeyTextInjective(j, k);
    }
    forall j: QueueId | j.kind == kind ensures AgesAt(index', contents, j) {
      assert AgesAt(index, contents, j);
      AgesFromMembers(index, contents, j);
      AgesFromMembers(index', contents, j);
    }
  }

  /** A queue stranded off the index while it holds messages: the next insert lists it again,
      but with its own time. The index is in step again if and only if none of the messages
      that were waiting is older than that. */
  lemma StrandedInsert(index: seq<Scored>, contents: map<QueueId, seq<Item>>, busy: iset<QueueId>, k: QueueId,
                       item: Item)
    requires IndexAgrees(index, contents, k.kind, busy) && k in busy && !HasMember(index, KeyText(k))
    ensures var index' := ZAddNX(index, item.insertedAt, KeyText(k));
      IndexAgrees(index', contents[k := ItemsIn(contents, k) + [item]], k.kind, busy - iset{k})
      <==> forall j :: 0 <= j < |ItemsIn(contents, k)| ==> item.insertedAt <= ItemsIn(contents, k)[j].insertedAt
  {
    var now, items := item.insertedAt, ItemsIn(contents, k);
    var index', contents' := ZAddNX(index, now, KeyText(k)), contents[k := items + [item]];
    AddedMembers(index, now, KeyText(k));
    StrandedAges(index, contents, k, item);
    if forall j :: 0 <= j < |items| ==> now <= items[j].insertedAt {
      forall j: QueueId | j.kind == k.kind
        ensures ListsAt(index', contents', busy - iset{k}, j) && AgesAt(index', contents', j)
      {
        assert ListsAt(index, contents, busy, j) && AgesAt(index, contents, j);
        KeyTextInjective(j, k);
        if j != k { OtherAges(index, contents, k, item, j); }
      }
      forall e | e in index' ensures KeyOf(k.kind, e.member) {
        if e !in index { assert e.member == KeyText(k); }
      }
    }
    assert IndexAgrees(index', contents', k.kind, busy - iset{k}) ==> AgesAt(index', contents', k);
  }

  lemma StrandedAges(index: seq<Scored>, contents: map<QueueId, seq<Item>>, k: QueueId, item: Item)
    requires !HasMember(index, KeyText(k))
    ensures AgesAt(ZAddNX(index, item.insertedAt, KeyText(k)), contents[k := ItemsIn(contents, k) + [item]], k)
      <==> forall j :: 0 <= j < |ItemsIn(contents, k)| ==> item.insertedAt <= ItemsIn(contents, k)[j].insertedAt
  {
    var now, items := item.insertedAt, ItemsIn(contents, k);
    var index', contents' := ZAddNX(index, now, KeyText(k)), contents[k := items + [item]];
    AddedMembers(index, now, KeyText(k));
    MemberOf(index, KeyText(k));
    AgesFromMembers(index', contents', k);
    assert ItemsIn(contents', k) == items + [item];
    assert Scored(now, KeyText(k)) in index';
    if AgesAt(index', contents', k) {
      forall j | 0 <= j < |items| ensures now <= items[j].insertedAt {
        assert ItemsIn(contents', k)[j] == items[j];
      }
    }
  }

  lemma OtherAges(index: seq<Scored>, contents: map<QueueId, seq<Item>>, k: QueueId, item: Item, j: QueueId)
    requires AgesAt(index, contents, j) && j.kind == k.kind && j != k
    ensures AgesAt(ZAddNX(index, item.insertedAt, KeyText(k)), contents[k := ItemsIn(contents, k) + [item]], j)
  {
    var index', contents' := ZAddNX(index, item.insertedAt, KeyText(k)), contents[k := ItemsIn(contents, k) + [item]];
    AddedMembers(index, item.insertedAt, KeyText(k));
    KeyTextInjective(j, k);
    AgesFromMembers(index, contents, j);
    assert ItemsIn(contents', j) == ItemsIn(contents, j);
    forall e | e in index' && e.member == KeyText(j) ensures e in index { assert e.member != KeyText(k); }
    AgesFromMembers(index', contents', j);
  }

  /** What a fruitless poll means: every stored item is younger than the limit. */
  lemma NothingOld(index: seq<Scored>, contents: map<QueueId, seq<Item>>, kind: Kind, limit: nat, k: QueueId, i: nat)
    requires IndexAgrees(index, contents, kind, iset{}) && ZRangeByScore(index, 0, limit) == []
    requires k.kind == kind && i < |ItemsIn(contents, k)|
    ensures ItemsIn(contents, k)[i].insertedAt > limit
  {
    assert ListsAt(index, contents, iset{}, k) && AgesAt(index, contents, k);
    var j :| 0 <= j < |index| && index[j].member == KeyText(k);
    RangeMembers(index, 0, limit);
    assert index[j] in index;
  }
}
