/** Chunks as they travel: their kinds, their order, and their bincode form. */
module Chunks {
  import opened Bincode

  const EMPTY_VEC_SIZE: nat := 8
  const EMPTY_DENIMCHUNK_SIZE: nat := 12

  datatype DenimChunk = DenimChunk(chunk: seq<Byte>, flags: int)
  {
    predicate IsDummy() { flags == 1 }
    predicate IsFinal() { flags == 2 }
    predicate IsData() { flags <= 0 }
  }

  datatype ChunkType = Data(order: int) | Dummy | Final

  /** None is the branch the program marks unreachable, where it panics. */
  function FromFlags(v: int): Option<ChunkType> {
    if v == 1 then Some(Dummy)
    else if v == 2 then Some(Final)
    else if v <= 0 then Some(Data(v))
    else None
  }

  function ToFlags(t: ChunkType): int {
    match t
    case Dummy => 1
    case Final => 2
    case Data(v) => v
  }

  /** The conversion survives the wire exactly for kinds a cutter may produce:
      a data label of 1 or 2 would come back as a dummy or a final chunk. */
  lemma ChunkTypeRoundTrip(t: ChunkType)
    ensures FromFlags(ToFlags(t)) == Some(t) <==> (t.Data? ==> t.order <= 0)
    ensures FromFlags(ToFlags(t)).None? <==> t.Data? && t.order > 2
  {
  }

  function Zeros(n: nat): (s: seq<Byte>)
    ensures |s| == n
  {
    seq(n, _ => 0)
  }

  function DummyChunk(size: nat): DenimChunk { DenimChunk(Zeros(size), ToFlags(Dummy)) }

  function NonDummy(cs: seq<DenimChunk>): (r: seq<DenimChunk>)
    ensures |r| <= |cs|
    ensures forall c :: c in r <==> c in cs && !c.IsDummy()
  {
    if cs == [] then []
    else (if cs[0].IsDummy() then [] else [cs[0]]) + NonDummy(cs[1..])
  }

  lemma {:induction false} NonDummyConcat(x: seq<DenimChunk>, y: seq<DenimChunk>)
    ensures NonDummy(x + y) == NonDummy(x) + NonDummy(y)
  {
    if x == [] {
      assert x + y == y;
    } else {
      assert (x + y)[1..] == x[1..] + y;
      NonDummyConcat(x[1..], y);
    }
  }

  lemma NonDummyHead(cs: seq<DenimChunk>)
    requires cs != [] && !cs[0].IsDummy()
    ensures NonDummy(cs) != [] && NonDummy(cs)[0] == cs[0] && NonDummy(cs)[1..] == NonDummy(cs[1..])
  {
  }

  predicate HasFinal(cs: seq<DenimChunk>) {
    exists i :: 0 <= i < |cs| && cs[i].IsFinal()
  }

  /** All chunk bytes in sequence order. */
  function Bytes(cs: seq<DenimChunk>): seq<Byte> {
    if cs == [] then [] else cs[0].chunk + Bytes(cs[1..])
  }

  lemma {:induction false} BytesConcat(x: seq<DenimChunk>, y: seq<DenimChunk>)
    ensures Bytes(x + y) == Bytes(x) + Bytes(y)
  {
    if x == [] {
      assert x + y == y;
    } else {
      assert (x + y)[1..] == x[1..] + y;
      BytesConcat(x[1..], y);
    }
  }

  // ---- The library sort under the reversed order ----

  function InsertDesc(c: DenimChunk, s: seq<DenimChunk>): seq<DenimChunk> {
    if s == [] || c.flags >= s[0].flags then [c] + s else [s[0]] + InsertDesc(c, s[1..])
  }

  /** Vec::sort under DenimChunk's Ord: stable, largest flags first. */
  function SortDesc(s: seq<DenimChunk>): seq<DenimChunk> {
    if s == [] then [] else InsertDesc(s[0], SortDesc(s[1..]))
  }

  ghost predicate Descending(s: seq<DenimChunk>) {
    forall i, j :: 0 <= i < j < |s| ==> s[i].flags >= s[j].flags
  }

  ghost predicate DistinctLabels(s: seq<DenimChunk>) {
    forall i, j :: 0 <= i < j < |s| ==> s[i].flags != s[j].flags
  }

  /** The chunks of s that carry label v, in the order s has them. */
  function WithLabel(s: seq<DenimChunk>, v: int): seq<DenimChunk> {
    if s == [] then [] else (if s[0].flags == v then [s[0]] else []) + WithLabel(s[1..], v)
  }

  ghost predicate SameUnderLabels(s: seq<DenimChunk>, t: seq<DenimChunk>) {
    forall v :: WithLabel(s, v) == WithLabel(t, v)
  }

  lemma {:induction false} InsertDescBag(c: DenimChunk, s: seq<DenimChunk>)
    ensures multiset(InsertDesc(c, s)) == multiset{c} + multiset(s)
    ensures forall x :: x in InsertDesc(c, s) <==> x == c || x in s
  {
    if s != [] && c.flags < s[0].flags {
      InsertDescBag(c, s[1..]);
      assert s == [s[0]] + s[1..];
    }
  }

  lemma {:induction false} InsertDescSorts(c: DenimChunk, s: seq<DenimChunk>)
    requires Descending(s)
    ensures Descending(InsertDesc(c, s))
  {
    if s != [] && c.flags < s[0].flags {
      var t := InsertDesc(c, s[1..]);
      InsertDescSorts(c, s[1..]);
      InsertDescBag(c, s[1..]);
      forall i | 0 <= i < |t| ensures t[i].flags <= s[0].flags {
        assert t[i] in t;
      }
    }
  }

  lemma WithLabelCons(c: DenimChunk, s: seq<DenimChunk>, v: int)
    ensures WithLabel([c] + s, v) == (if c.flags == v then [c] else []) + WithLabel(s, v)
  {
    assert ([c] + s)[1..] == s;
  }

  lemma {:induction false} InsertDescStable(c: DenimChunk, s: seq<DenimChunk>, v: int)
    ensures WithLabel(InsertDesc(c, s), v) == (if c.flags == v then [c] else []) + WithLabel(s, v)
  {
    if s == [] || c.flags >= s[0].flags {
      WithLabelCons(c, s, v);
    } else {
      InsertDescStable(c, s[1..], v);
      WithLabelCons(s[0], InsertDesc(c, s[1..]), v);
      WithLabelCons(s[0], s[1..], v);
      assert s == [s[0]] + s[1..];
    }
  }

  lemma {:induction false} SortDescSorts(s: seq<DenimChunk>)
    ensures Descending(SortDesc(s))
    ensures multiset(SortDesc(s)) == multiset(s)
    ensures |SortDesc(s)| == |s|
  {
    if s != [] {
      SortDescSorts(s[1..]);
      InsertDescSorts(s[0], SortDesc(s[1..]));
      InsertDescBag(s[0], SortDesc(s[1..]));
      assert s == [s[0]] + s[1..];
    }
    assert |multiset(SortDesc(s))| == |multiset(s)|;
  }

  lemma {:induction false} SortDescStable(s: seq<DenimChunk>, v: int)
    ensures WithLabel(SortDesc(s), v) == WithLabel(s, v)
  {
    if s != [] {
      SortDescStable(s[1..], v);
      InsertDescStable(s[0], SortDesc(s[1..]), v);
    }
  }

  /** SortDesc is the only descending arrangement that keeps, under every label, the
      original order: any stable sort is this one. */
  lemma SortDescIsTheStableSort(s: seq<DenimChunk>, t: seq<DenimChunk>)
    ensures t == SortDesc(s) <==> Descending(t) && SameUnderLabels(t, s)
  {
    SortDescSorts(s);
    forall v ensures WithLabel(SortDesc(s), v) == WithLabel(s, v) { SortDescStable(s, v); }
    if Descending(t) && SameUnderLabels(t, s) {
      StableSortUnique(t, SortDesc(s));
    }
  }

  lemma SameHead(a: seq<DenimChunk>, b: seq<DenimChunk>)
    requires Descending(a) && Descending(b) && SameUnderLabels(a, b)
    ensures a == [] <==> b == []
    ensures a != [] ==> a[0] == b[0]
  {
    if a != [] {
      assert WithLabel(a, a[0].flags) == WithLabel(b, a[0].flags);
      HeadIsLabelled(a);
      LabelledMember(b, a[0].flags);
    }
    if b != [] {
      assert WithLabel(a, b[0].flags) == WithLabel(b, b[0].flags);
      HeadIsLabelled(b);
      LabelledMember(a, b[0].flags);
    }
  }

  lemma {:induction false} StableSortUnique(a: seq<DenimChunk>, b: seq<DenimChunk>)
    requires Descending(a) && Descending(b)
    requires SameUnderLabels(a, b)
    ensures a == b
  {
    SameHead(a, b);
    if a != [] {
      forall v ensures WithLabel(a[1..], v) == WithLabel(b[1..], v) {
        assert WithLabel(a, v) == WithLabel(b, v);
        SameTail(a, b, v);
      }
      StableSortUnique(a[1..], b[1..]);
      assert a == [a[0]] + a[1..] && b == [b[0]] + b[1..];
    }
  }

  lemma HeadIsLabelled(s: seq<DenimChunk>)
    requires s != []
    ensures WithLabel(s, s[0].flags) != [] && WithLabel(s, s[0].flags)[0] == s[0]
  {
  }

  lemma SameTail(a: seq<DenimChunk>, b: seq<DenimChunk>, v: int)
    requires a != [] && b != [] && a[0] == b[0]
    requires WithLabel(a, v) == WithLabel(b, v)
    ensures WithLabel(a[1..], v) == WithLabel(b[1..], v)
  {
    var h := if a[0].flags == v then [a[0]] else [];
    assert WithLabel(a, v) == h + WithLabel(a[1..], v);
    assert WithLabel(b, v) == h + WithLabel(b[1..], v);
    assert WithLabel(a[1..], v) == WithLabel(a, v)[|h|..];
    assert WithLabel(b[1..], v) == WithLabel(b, v)[|h|..];
  }

  lemma {:induction false} LabelledMember(s: seq<DenimChunk>, v: int)
    ensures WithLabel(s, v) != [] ==> exists i :: 0 <= i < |s| && s[i].flags == v
  {
    if s != [] && s[0].flags != v && WithLabel(s, v) != [] {
      LabelledMember(s[1..], v);
      var i :| 0 <= i < |s[1..]| && s[1..][i].flags == v;
      assert s[i + 1].flags == v;
    }
  }

  /** With distinct labels the sorted order depends only on which chunks there are. */
  lemma {:induction false} SortIgnoresOrder(s: seq<DenimChunk>, t: seq<DenimChunk>)
    requires multiset(s) == multiset(t)
    requires DistinctLabels(s)
    ensures SortDesc(s) == SortDesc(t)
  {
    SortDescSorts(s);
    SortDescSorts(t);
    DistinctIsBag(s, SortDesc(s));
    DistinctIsBag(s, SortDesc(t));
    DescendingBagUnique(SortDesc(s), SortDesc(t));
  }

  /** Distinct labels is a property of the bag of chunks. */
  lemma DistinctIsBag(s: seq<DenimChunk>, t: seq<DenimChunk>)
    requires multiset(s) == multiset(t)
    requires DistinctLabels(s)
    ensures DistinctLabels(t)
  {
    forall i, j | 0 <= i < j < |t| ensures t[i].flags != t[j].flags {
      assert t[i] in multiset(s) && t[j] in multiset(s);
      if t[i].flags == t[j].flags {
        assert t == t[..i] + [t[i]] + t[i + 1..j] + [t[j]] + t[j + 1..];
        assert t[i] in s && t[j] in s;
        assert t[i] == t[j];
        assert multiset(t)[t[i]] >= 2;
        OnceIfDistinct(s, t[i]);
      }
    }
  }

  lemma {:induction false} OnceIfDistinct(s: seq<DenimChunk>, c: DenimChunk)
    requires DistinctLabels(s)
    ensures multiset(s)[c] <= 1
  {
    if s != [] {
      OnceIfDistinct(s[1..], c);
      assert s == [s[0]] + s[1..];
      assert c == s[0] ==> c !in s[1..];
    }
  }

  lemma SameLargest(a: seq<DenimChunk>, b: seq<DenimChunk>)
    requires Descending(a) && Descending(b) && DistinctLabels(a)
    requires multiset(a) == multiset(b) && a != []
    ensures b != [] && a[0] == b[0]
  {
    assert a[0] in multiset(b);
    var i :| 0 <= i < |b| && b[i] == a[0];
    assert b[0] in multiset(a);
    var j :| 0 <= j < |a| && a[j] == b[0];
  }

  lemma TailBag(a: seq<DenimChunk>)
    requires a != []
    ensures multiset(a[1..]) == multiset(a) - multiset{a[0]}
  {
    assert a == [a[0]] + a[1..];
  }

  lemma TailDescends(a: seq<DenimChunk>)
    requires a != [] && Descending(a)
    ensures Descending(a[1..])
    ensures DistinctLabels(a) ==> DistinctLabels(a[1..])
  {
  }

  lemma {:induction false} DescendingBagUnique(a: seq<DenimChunk>, b: seq<DenimChunk>)
    requires Descending(a) && Descending(b) && DistinctLabels(a)
    requires multiset(a) == multiset(b)
    ensures a == b
  {
    if a == [] {
      assert |multiset(b)| == |b|;
    } else {
      SameLargest(a, b);
      TailBag(a);
      TailBag(b);
      TailDescends(a);
      TailDescends(b);
      DescendingBagUnique(a[1..], b[1..]);
      assert a == [a[0]] + a[1..] && b == [b[0]] + b[1..];
    }
  }

  // ---- bincode ----

  function SerializeChunk(c: DenimChunk): (s: seq<Byte>)
    ensures |s| == EMPTY_DENIMCHUNK_SIZE + |c.chunk|
  {
    LittleEndian(|c.chunk|, 8) + c.chunk + EncodeI32(c.flags)
  }

  function SerializeEach(cs: seq<DenimChunk>): seq<Byte> {
    if cs == [] then [] else SerializeChunk(cs[0]) + SerializeEach(cs[1..])
  }

  function Serialize(cs: seq<DenimChunk>): seq<Byte> {
    LittleEndian(|cs|, 8) + SerializeEach(cs)
  }

  function DeserializeChunk(s: seq<Byte>): Option<(DenimChunk, seq<Byte>)> {
    if |s| < 8 then None else
    var n := FromLittleEndian(s[..8]);
    if |s| < 12 + n then None
    else Some((DenimChunk(s[8..8 + n], DecodeI32(s[8 + n..12 + n])), s[12 + n..]))
  }

  function DeserializeEach(s: seq<Byte>, count: nat): Option<seq<DenimChunk>>
    decreases count
  {
    if count == 0 then Some([]) else
    var first := DeserializeChunk(s);
    if first.None? then None else
    var rest := DeserializeEach(first.value.1, count - 1);
    if rest.None? then None else Some([first.value.0] + rest.value)
  }

  function Deserialize(s: seq<Byte>): Option<seq<DenimChunk>> {
    if |s| < 8 then None else DeserializeEach(s[8..], FromLittleEndian(s[..8]))
  }

  /** Lengths fit in 64 bits and labels in 32, as the program's own types guarantee. */
  ghost predicate Encodable(c: DenimChunk) {
    |c.chunk| < U64_LIMIT && -I32_LIMIT <= c.flags < I32_LIMIT
  }

  /** The bytes of a serialized chunk: the length of its data, the data, and the label in
      two's complement, both numbers least significant byte first. */
  lemma ChunkLayout(c: DenimChunk)
    ensures var s, n := SerializeChunk(c), |c.chunk|;
      && |s| == 12 + n && s[8..8 + n] == c.chunk
      && (forall i: nat :: i < 8 ==> s[i] == n / Pow256(i) % 256)
      && (forall i: nat :: i < 4 ==> s[8 + n + i] == c.flags % 0x1_0000_0000 / Pow256(i) % 256)
  {
    LittleEndianDigits(|c.chunk|, 8);
    LittleEndianDigits(c.flags % 0x1_0000_0000, 4);
  }

  /** A serialized list is its length and then each chunk behind the ones before it. */
  lemma {:induction false} ListLayout(cs: seq<DenimChunk>, k: nat)
    requires k < |cs|
    ensures var s, start := Serialize(cs), 8 + Cost(cs[..k]);
      && (forall i: nat :: i < 8 ==> s[i] == |cs| / Pow256(i) % 256)
      && start + 12 + |cs[k].chunk| <= |s| && s[start..start + 12 + |cs[k].chunk|] == SerializeChunk(cs[k])
  {
    LittleEndianDigits(|cs|, 8);
    EachLayout(cs, k);
    var s, start := Serialize(cs), Cost(cs[..k]);
    assert s[8..] == SerializeEach(cs);
    assert s[8 + start..8 + start + 12 + |cs[k].chunk|] == s[8..][start..start + 12 + |cs[k].chunk|];
  }

  lemma {:induction false} EachLayout(cs: seq<DenimChunk>, k: nat)
    requires k < |cs|
    ensures var s, start := SerializeEach(cs), Cost(cs[..k]);
      start + 12 + |cs[k].chunk| <= |s| && s[start..start + 12 + |cs[k].chunk|] == SerializeChunk(cs[k])
  {
    if k == 0 {
      assert cs[..0] == [];
    } else {
      EachLayout(cs[1..], k - 1);
      assert cs[..k] == [cs[0]] + cs[1..][..k - 1];
      var rest, start, n := SerializeEach(cs[1..]), Cost(cs[1..][..k - 1]), 12 + |cs[0].chunk|;
      assert Cost(cs[..k]) == n + start;
      assert SerializeEach(cs)[n..] == rest;
      assert SerializeEach(cs)[n + start..n + start + 12 + |cs[k].chunk|]
        == SerializeEach(cs)[n..][start..start + 12 + |cs[k].chunk|];
    }
  }

  lemma ChunkRoundTrip(c: DenimChunk, more: seq<Byte>)
    requires Encodable(c)
    ensures DeserializeChunk(SerializeChunk(c) + more) == Some((c, more))
  {
    var s := SerializeChunk(c) + more;
    LittleEndianRoundTrip(|c.chunk|, 8);
    I32RoundTrip(c.flags);
    var n := |c.chunk|;
    assert s[..8] == LittleEndian(n, 8);
    assert s[8..8 + n] == c.chunk;
    assert s[8 + n..12 + n] == EncodeI32(c.flags);
    assert s[12 + n..] == more;
  }

  lemma {:induction false} EachRoundTrip(cs: seq<DenimChunk>)
    requires forall c :: c in cs ==> Encodable(c)
    ensures DeserializeEach(SerializeEach(cs), |cs|) == Some(cs)
  {
    if cs != [] {
      ChunkRoundTrip(cs[0], SerializeEach(cs[1..]));
      EachRoundTrip(cs[1..]);
      OneMoreChunk(SerializeEach(cs), cs[0], SerializeEach(cs[1..]), cs[1..]);
      assert cs == [cs[0]] + cs[1..];
    }
  }

  lemma OneMoreChunk(s: seq<Byte>, c: DenimChunk, more: seq<Byte>, cs: seq<DenimChunk>)
    requires DeserializeChunk(s) == Some((c, more)) && DeserializeEach(more, |cs|) == Some(cs)
    ensures DeserializeEach(s, |cs| + 1) == Some([c] + cs)
  {
  }

  lemma SerializeRoundTrip(cs: seq<DenimChunk>)
    requires |cs| < U64_LIMIT && forall c :: c in cs ==> Encodable(c)
    ensures Deserialize(Serialize(cs)) == Some(cs)
  {
    LittleEndianRoundTrip(|cs|, 8);
    assert Serialize(cs)[..8] == LittleEndian(|cs|, 8);
    assert Serialize(cs)[8..] == SerializeEach(cs);
    EachRoundTrip(cs);
  }

  /** The serialized size the fill loops measure: 8 + sum of (12 + length). */
  function Cost(cs: seq<DenimChunk>): nat {
    if cs == [] then 0 else EMPTY_DENIMCHUNK_SIZE + |cs[0].chunk| + Cost(cs[1..])
  }

  lemma {:induction false} SerializedSize(cs: seq<DenimChunk>)
    ensures |Serialize(cs)| == EMPTY_VEC_SIZE + Cost(cs)
  {
    if cs != [] { SerializedSize(cs[1..]); }
  }

  lemma {:induction false} CostConcat(x: seq<DenimChunk>, y: seq<DenimChunk>)
    ensures Cost(x + y) == Cost(x) + Cost(y)
  {
    if x == [] {
      assert x + y == y;
    } else {
      assert (x + y)[1..] == x[1..] + y;
      CostConcat(x[1..], y);
    }
  }
}
