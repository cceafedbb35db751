/** One queue of the store: a sorted set of text entries, the hash from guids to ids with
    the id counter in it, and the hash back. The reference is a plain list. */
module Entries {
  import opened Bincode
  import opened Text
  import opened SortedSet
  import opened Cutting

  const COUNTER: string := "counter"

  // ---- The entry text id:base64:order ----

  function EntryText(id: nat, value: seq<Byte>, order: int): string {
    PrintNat(id) + ":" + Encode(value) + ":" + PrintInt(order)
  }

  function EntryId(entry: string): Option<nat> {
    ParseNat(Split(entry, ':')[0])
  }

  function EntryBytes(entry: string): Option<seq<Byte>> {
    var fields := Split(entry, ':');
    if |fields| < 2 then None else Decode(fields[1])
  }

  function EntryOrder(entry: string): Option<int> {
    var fields := Split(entry, ':');
    if |fields| < 3 then None else ParseInt(fields[2])
  }

  lemma EntryRoundTrip(id: nat, value: seq<Byte>, order: int)
    ensures var e := EntryText(id, value, order);
            EntryId(e) == Some(id) && EntryBytes(e) == Some(value) && EntryOrder(e) == Some(order)
  {
    NatRoundTrip(id);
    IntRoundTrip(order);
    Base64RoundTrip(value);
    Base64HasNoColon(value);
    ThreeFields(PrintNat(id), Encode(value), PrintInt(order));
  }

  /** As the store shows them: id, base64 and order, in this order. */
  lemma EntryExamples()
    ensures EntryText(1, [0xFB], 0) == "1:+w==:0"
    ensures EntryText(12, [], -3) == "12::-3"
  {
    assert Encode([0xFB]) == "+w==";
    assert PrintNat(12) == "1" + "2" && PrintInt(-3) == "-" + "3";
  }

  lemma ThreeFields(a: string, b: string, c: string)
    requires ':' !in a && ':' !in b && ':' !in c
    ensures Split(a + ":" + b + ":" + c, ':') == [a, b, c]
  {
    SplitField(a, ':', b + ":" + c);
    SplitField(b, ':', c);
    SplitField(c, ':', "");
    assert a + ":" + b + ":" + c == a + [':'] + (b + ":" + c);
    assert b + ":" + c == b + [':'] + c;
    assert [a] + ([b] + [c]) == [a, b, c];
  }

  // ---- The list ----

  /** insertedAt is not stored; the age guarantee of the persister speaks of it. */
  datatype Item = Item(guid: string, id: nat, bytes: seq<Byte>, order: int, insertedAt: nat)

  function Entry(i: Item): Scored { Scored(i.id, EntryText(i.id, i.bytes, i.order)) }

  function EntriesOf(items: seq<Item>): (z: seq<Scored>)
    ensures |z| == |items|
    ensures forall i :: 0 <= i < |items| ==> z[i] == Entry(items[i])
  {
    seq(|items|, i requires 0 <= i < |items| => Entry(items[i]))
  }

  ghost predicate IdsRise(items: seq<Item>) {
    forall i, j :: 0 <= i < j < |items| ==> items[i].id < items[j].id
  }

  ghost predicate GuidsDiffer(items: seq<Item>) {
    forall i, j :: 0 <= i < j < |items| ==> items[i].guid != items[j].guid
  }

  ghost predicate HasGuid(items: seq<Item>, guid: string) {
    exists i :: 0 <= i < |items| && items[i].guid == guid
  }

  datatype QueueData = QueueData(zset: seq<Scored>, metadata: map<string, nat>, reverse: map<nat, string>)

  const EMPTY_QUEUE: QueueData := QueueData([], map[], map[])

  ghost predicate HasId(items: seq<Item>, id: nat) {
    exists i :: 0 <= i < |items| && items[i].id == id
  }

  ghost predicate WellListed(items: seq<Item>) {
    IdsRise(items) && GuidsDiffer(items) && !HasGuid(items, COUNTER)
  }

  /** guid-to-id, plus the counter, which no live id exceeds. */
  ghost predicate MetadataReads(metadata: map<string, nat>, items: seq<Item>) {
    && (forall i :: 0 <= i < |items| ==> items[i].guid in metadata && metadata[items[i].guid] == items[i].id)
    && (forall g :: g in metadata ==> g == COUNTER || HasGuid(items, g))
    && (items != [] ==> COUNTER in metadata)
    && (COUNTER in metadata ==> forall i :: 0 <= i < |items| ==> 0 < items[i].id <= metadata[COUNTER])
  }

  /** id-to-guid. */
  ghost predicate ReverseReads(reverse: map<nat, string>, items: seq<Item>) {
    && (forall i :: 0 <= i < |items| ==> items[i].id in reverse && reverse[items[i].id] == items[i].guid)
    && (forall id :: id in reverse ==> HasId(items, id))
  }

  /** The structures say what the list says. The two hashes are inverse bijections
      between live guids and live ids; list order is id order. The counter may outlive
      the last entry for a moment. */
  ghost predicate Represents(d: QueueData, items: seq<Item>) {
    && WellListed(items)
    && d.zset == EntriesOf(items)
    && MetadataReads(d.metadata, items)
    && ReverseReads(d.reverse, items)
  }

  /** Between operations an empty queue leaves nothing behind, not even its counter. */
  ghost predicate Complete(d: QueueData, items: seq<Item>) {
    Represents(d, items) && (items == [] ==> d.metadata == map[])
  }

  function CounterOf(d: QueueData): nat {
    if COUNTER in d.metadata then d.metadata[COUNTER] else 0
  }

  function RemoveAt(items: seq<Item>, i: nat): seq<Item>
    requires i < |items|
  {
    items[..i] + items[i + 1..]
  }

  function IndexOf(items: seq<Item>, guid: string): (i: nat)
    ensures i <= |items|
    ensures i < |items| ==> items[i].guid == guid
    ensures forall j :: 0 <= j < i ==> items[j].guid != guid
  {
    if items == [] || items[0].guid == guid then 0 else 1 + IndexOf(items[1..], guid)
  }

  /** The list after removing guids one by one, and the bytes removed, in that order. */
  datatype Removal = Removal(rest: seq<Item>, values: seq<seq<Byte>>)

  function RemoveGuids(items: seq<Item>, guids: seq<string>): Removal
    decreases |guids|
  {
    if guids == [] then Removal(items, []) else
    var i := IndexOf(items, guids[0]);
    if i == |items| then RemoveGuids(items, guids[1..]) else
    var more := RemoveGuids(RemoveAt(items, i), guids[1..]);
    Removal(more.rest, [items[i].bytes] + more.values)
  }

  function Guids(items: seq<Item>): (g: seq<string>)
    ensures |g| == |items| && forall i :: 0 <= i < |items| ==> g[i] == items[i].guid
  {
    seq(|items|, i requires 0 <= i < |items| => items[i].guid)
  }

  function Values(items: seq<Item>): (v: seq<seq<Byte>>)
    ensures |v| == |items| && forall i :: 0 <= i < |items| ==> v[i] == items[i].bytes
  {
    seq(|items|, i requires 0 <= i < |items| => items[i].bytes)
  }

  function Pendings(items: seq<Item>): (q: seq<Pending>)
    ensures |q| == |items| && forall i :: 0 <= i < |items| ==> q[i] == Pending(items[i].bytes, items[i].order)
  {
    seq(|items|, i requires 0 <= i < |items| => Pending(items[i].bytes, items[i].order))
  }

  lemma NoCounterAmong(items: seq<Item>, n: nat)
    requires n <= |items| && WellListed(items)
    ensures COUNTER !in Guids(items[..n])
  {
    forall i | 0 <= i < n ensures Guids(items[..n])[i] != COUNTER { assert items[i].guid != COUNTER; }
  }

  // ---- What each operation keeps ----

  lemma EntriesRise(items: seq<Item>)
    requires IdsRise(items)
    ensures ScoresRise(EntriesOf(items))
  {
    var z := EntriesOf(items);
    forall i, j | 0 <= i < j < |z| ensures z[i].score < z[j].score {
      assert z[i] == Entry(items[i]) && z[j] == Entry(items[j]);
    }
  }

  lemma EntriesRemoved(items: seq<Item>, i: nat)
    requires i < |items|
    ensures EntriesOf(RemoveAt(items, i)) == EntriesOf(items)[..i] + EntriesOf(items)[i + 1..]
  {
    var z, r := EntriesOf(items), RemoveAt(items, i);
    forall j | 0 <= j < |r| ensures EntriesOf(r)[j] == (z[..i] + z[i + 1..])[j] {
      assert r[j] == items[if j < i then j else j + 1];
    }
  }

  lemma InsertListed(items: seq<Item>, item: Item)
    requires WellListed(items) && item.guid != COUNTER && !HasGuid(items, item.guid)
    requires forall i :: 0 <= i < |items| ==> items[i].id < item.id
    ensures WellListed(items + [item])
  {
  }

  lemma InsertZset(items: seq<Item>, item: Item)
    requires forall i :: 0 <= i < |items| ==> items[i].id < item.id
    ensures ZAddNX(EntriesOf(items), item.id, Entry(item).member) == EntriesOf(items + [item])
  {
    var z, e := EntriesOf(items), Entry(item);
    forall x | x in z ensures x.score < item.id {
      var j :| 0 <= j < |items| && x == Entry(items[j]);
    }
    forall j | 0 <= j < |z| ensures z[j].member != e.member {
      EntryRoundTrip(items[j].id, items[j].bytes, items[j].order);
      EntryRoundTrip(item.id, item.bytes, item.order);
    }
    InsertAt(z, e, []);
    assert z + [] == z && z + [e] + [] == EntriesOf(items + [item]);
  }

  lemma InsertMetadata(metadata: map<string, nat>, items: seq<Item>, item: Item)
    requires MetadataReads(metadata, items)
    requires item.guid != COUNTER && !HasGuid(items, item.guid) && !HasGuid(items, COUNTER)
    requires item.id > 0 && forall i :: 0 <= i < |items| ==> items[i].id < item.id
    ensures MetadataReads(metadata[COUNTER := item.id][item.guid := item.id], items + [item])
  {
    var m, items' := metadata[COUNTER := item.id][item.guid := item.id], items + [item];
    forall g | g in m ensures g == COUNTER || HasGuid(items', g) {
      if g == item.guid {
        assert items'[|items|].guid == g;
      } else if g != COUNTER {
        var i :| 0 <= i < |items| && items[i].guid == g;
        assert items'[i].guid == g;
      }
    }
    forall i | 0 <= i < |items'| ensures items'[i].guid in m && m[items'[i].guid] == items'[i].id {
      if i < |items| { assert items[i].guid != item.guid && items[i].guid != COUNTER; }
    }
  }

  lemma InsertReverse(reverse: map<nat, string>, items: seq<Item>, item: Item)
    requires ReverseReads(reverse, items)
    requires forall i :: 0 <= i < |items| ==> items[i].id < item.id
    ensures ReverseReads(reverse[item.id := item.guid], items + [item])
  {
    var r, items' := reverse[item.id := item.guid], items + [item];
    forall id | id in r ensures HasId(items', id) {
      if id == item.id {
        assert items'[|items|].id == id;
      } else {
        var i :| 0 <= i < |items| && items[i].id == id;
        assert items'[i].id == id;
      }
    }
  }

  lemma InsertRepresents(d: QueueData, items: seq<Item>, guid: string, value: seq<Byte>, now: nat)
    requires Complete(d, items) && guid != COUNTER && guid !in d.metadata
    ensures var id := CounterOf(d) + 1;
            Complete(QueueData(ZAddNX(d.zset, id, EntryText(id, value, 0)),
                               d.metadata[COUNTER := id][guid := id], d.reverse[id := guid]),
                     items + [Item(guid, id, value, 0, now)])
  {
    var item := Item(guid, CounterOf(d) + 1, value, 0, now);
    assert !HasGuid(items, guid);
    assert forall i :: 0 <= i < |items| ==> items[i].id < item.id;
    InsertListed(items, item);
    InsertZset(items, item);
    InsertMetadata(d.metadata, items, item);
    InsertReverse(d.reverse, items, item);
  }

  lemma RemoveListed(items: seq<Item>, i: nat)
    requires i < |items| && WellListed(items)
    ensures WellListed(RemoveAt(items, i))
    ensures forall j :: 0 <= j < |items| - 1 ==> RemoveAt(items, i)[j] == items[if j < i then j else j + 1]
    ensures !HasGuid(RemoveAt(items, i), items[i].guid) && !HasId(RemoveAt(items, i), items[i].id)
  {
    var r := RemoveAt(items, i);
    forall j | 0 <= j < |r| ensures r[j] == items[if j < i then j else j + 1] {}
  }

  lemma RemoveZset(items: seq<Item>, i: nat)
    requires i < |items| && IdsRise(items)
    ensures var z := EntriesOf(items); var id := items[i].id;
            && ZRangeByScore(z, id, id) == [Entry(items[i])]
            && ZRemRangeByScore(z, id, id) == EntriesOf(RemoveAt(items, i))
  {
    var z := EntriesOf(items);
    EntriesRise(items);
    ApartAt(z, i);
    EntriesRemoved(items, i);
    forall x | x in z[..i] + z[i + 1..] ensures x.score != z[i].score {
      assert x in z[..i] || x in z[i + 1..];
    }
    ScoreAt(z[..i], z[i], z[i + 1..]);
  }

  lemma RemoveMetadata(metadata: map<string, nat>, items: seq<Item>, i: nat)
    requires i < |items| && WellListed(items) && MetadataReads(metadata, items)
    ensures MetadataReads(metadata - {items[i].guid}, RemoveAt(items, i))
  {
    var m, r := metadata - {items[i].guid}, RemoveAt(items, i);
    RemoveListed(items, i);
    forall g | g in m ensures g == COUNTER || HasGuid(r, g) {
      if g != COUNTER {
        var j :| 0 <= j < |items| && items[j].guid == g;
        assert r[if j < i then j else j - 1].guid == g;
      }
    }
    forall j | 0 <= j < |r| ensures r[j].guid in m && m[r[j].guid] == r[j].id {
      assert r[j].guid != items[i].guid;
    }
  }

  lemma RemoveReverse(reverse: map<nat, string>, items: seq<Item>, i: nat)
    requires i < |items| && WellListed(items) && ReverseReads(reverse, items)
    ensures ReverseReads(reverse - {items[i].id}, RemoveAt(items, i))
  {
    var v, r := reverse - {items[i].id}, RemoveAt(items, i);
    RemoveListed(items, i);
    forall id | id in v ensures HasId(r, id) {
      var j :| 0 <= j < |items| && items[j].id == id;
      assert r[if j < i then j else j - 1].id == id;
    }
    forall j | 0 <= j < |r| ensures r[j].id in v && v[r[j].id] == r[j].guid {
      assert r[j].id != items[i].id;
    }
  }

  lemma RemoveRepresents(d: QueueData, items: seq<Item>, i: nat)
    requires Represents(d, items) && i < |items|
    ensures var id := items[i].id; var guid := items[i].guid;
            && ZRangeByScore(d.zset, id, id) == [Entry(items[i])]
            && Represents(QueueData(ZRemRangeByScore(d.zset, id, id), d.metadata - {guid}, d.reverse - {id}),
                          RemoveAt(items, i))
  {
    RemoveListed(items, i);
    RemoveZset(items, i);
    RemoveMetadata(d.metadata, items, i);
    RemoveReverse(d.reverse, items, i);
  }

  lemma UpdateZset(items: seq<Item>, i: nat, value: seq<Byte>, order: int)
    requires i < |items| && IdsRise(items)
    ensures var id := items[i].id; var entry := EntryText(id, value, order);
            var z := ZRem(EntriesOf(items), Entry(items[i]).member);
            && |z| == |items| - 1
            && ZAdd(z, id, entry) == (EntriesOf(items[i := items[i].(bytes := value, order := order)]), 1)
  {
    var z := EntriesOf(items);
    EntriesRise(items);
    NoSuchMember(items, i, items[i].bytes, items[i].order);
    NoSuchMember(items, i, value, order);
    ReplaceAt(z, i, Scored(items[i].id, EntryText(items[i].id, value, order)));
    var items' := items[i := items[i].(bytes := value, order := order)];
    assert z[i := Entry(items'[i])] == EntriesOf(items');
  }

  lemma ReplaceAt(z: seq<Scored>, i: nat, e: Scored)
    requires i < |z| && ScoresRise(z) && e.score == z[i].score
    requires !HasMember(z[..i] + z[i + 1..], z[i].member) && !HasMember(z[..i] + z[i + 1..], e.member)
    ensures var shorter := ZRem(z, z[i].member);
      && |shorter| == |z| - 1
      && ZAdd(shorter, e.score, e.member) == (z[i := e], 1)
  {
    var a, b := z[..i], z[i + 1..];
    ApartAt(z, i);
    MemberAt(a, z[i], b);
    MemberAbsent(a + b, e.member);
    InsertAt(a, e, b);
    assert a + [e] + b == z[i := e];
  }

  /** Same guids and ids throughout; only contents differ. */
  ghost predicate SameNames(a: seq<Item>, b: seq<Item>) {
    |a| == |b| && forall i :: 0 <= i < |a| ==> a[i].guid == b[i].guid && a[i].id == b[i].id
  }

  lemma SameNamesListed(a: seq<Item>, b: seq<Item>)
    requires SameNames(a, b)
    ensures WellListed(a) ==> WellListed(b)
    ensures forall g :: HasGuid(a, g) ==> HasGuid(b, g)
    ensures forall k :: HasId(a, k) ==> HasId(b, k)
  {
    forall g | HasGuid(a, g) ensures HasGuid(b, g) {
      var j :| 0 <= j < |a| && a[j].guid == g;
      assert b[j].guid == g;
    }
    forall k | HasId(a, k) ensures HasId(b, k) {
      var j :| 0 <= j < |a| && a[j].id == k;
      assert b[j].id == k;
    }
  }

  lemma SameNamesMetadata(metadata: map<string, nat>, a: seq<Item>, b: seq<Item>)
    requires SameNames(a, b) && MetadataReads(metadata, a)
    ensures MetadataReads(metadata, b)
  {
    SameNamesListed(a, b);
  }

  lemma SameNamesReverse(reverse: map<nat, string>, a: seq<Item>, b: seq<Item>)
    requires SameNames(a, b) && ReverseReads(reverse, a)
    ensures ReverseReads(reverse, b)
  {
    SameNamesListed(a, b);
  }

  /** Rewriting an entry keeps its place and its id. */
  lemma UpdateRepresents(d: QueueData, items: seq<Item>, i: nat, value: seq<Byte>, order: int)
    requires Complete(d, items) && i < |items|
    ensures var items' := items[i := items[i].(bytes := value, order := order)];
            Complete(d.(zset := EntriesOf(items')), items')
  {
    var items' := items[i := items[i].(bytes := value, order := order)];
    SameNamesListed(items, items');
    SameNamesHashes(d, items, items');
  }

  lemma SameNamesHashes(d: QueueData, a: seq<Item>, b: seq<Item>)
    requires SameNames(a, b) && MetadataReads(d.metadata, a) && ReverseReads(d.reverse, a)
    ensures MetadataReads(d.metadata, b) && ReverseReads(d.reverse, b)
  {
    SameNamesMetadata(d.metadata, a, b);
    SameNamesReverse(d.reverse, a, b);
  }

  /** No other entry can read like one with this entry's id. */
  lemma NoSuchMember(items: seq<Item>, i: nat, value: seq<Byte>, order: int)
    requires i < |items| && IdsRise(items)
    ensures var z := EntriesOf(items); !HasMember(z[..i] + z[i + 1..], EntryText(items[i].id, value, order))
  {
    var z := EntriesOf(items);
    var others := z[..i] + z[i + 1..];
    EntryRoundTrip(items[i].id, value, order);
    forall j | 0 <= j < |others| ensures others[j].member != EntryText(items[i].id, value, order) {
      var o := items[if j < i then j else j + 1];
      assert others[j] == Entry(o);
      EntryRoundTrip(o.id, o.bytes, o.order);
    }
  }

  lemma RemoveHead(items: seq<Item>, guids: seq<string>)
    requires items != [] && guids != [] && guids[0] == items[0].guid
    ensures var more := RemoveGuids(items[1..], guids[1..]);
      RemoveGuids(items, guids) == Removal(more.rest, [items[0].bytes] + more.values)
  {
    assert IndexOf(items, guids[0]) == 0 && RemoveAt(items, 0) == items[1..];
  }

  lemma PrefixParts(items: seq<Item>, n: nat)
    requires 0 < n <= |items|
    ensures Guids(items[..n]) != [] && Guids(items[..n])[1..] == Guids(items[1..][..n - 1])
    ensures Values(items[..n]) == [items[0].bytes] + Values(items[1..][..n - 1])
    ensures items[1..][n - 1..] == items[n..]
  {
  }

  /** Removing the guids of a prefix removes the prefix, in order. */
  ghost predicate PrefixComesOff(items: seq<Item>, n: nat)
    requires n <= |items|
  {
    RemoveGuids(items, Guids(items[..n])) == Removal(items[n..], Values(items[..n]))
  }

  lemma OneMoreOff(items: seq<Item>, n: nat)
    requires 0 < n <= |items| && PrefixComesOff(items[1..], n - 1)
    ensures PrefixComesOff(items, n)
  {
    RemoveHead(items, Guids(items[..n]));
    PrefixParts(items, n);
  }

  lemma {:induction false} RemovePrefix(items: seq<Item>, n: nat)
    requires n <= |items| && GuidsDiffer(items)
    ensures PrefixComesOff(items, n)
    decreases n
  {
    if n == 0 {
      assert items[0..] == items;
    } else {
      RemovePrefix(items[1..], n - 1);
      OneMoreOff(items, n);
    }
  }

  lemma {:induction false} RemovalKeeps(items: seq<Item>, guids: seq<string>)
    ensures var rest := RemoveGuids(items, guids).rest;
            forall x :: x in rest ==> x in items
    decreases |guids|
  {
    if guids != [] {
      var i := IndexOf(items, guids[0]);
      if i < |items| {
        RemovalKeeps(RemoveAt(items, i), guids[1..]);
        assert forall x :: x in RemoveAt(items, i) ==> x in items;
      } else {
        RemovalKeeps(items, guids[1..]);
      }
    }
  }
}
