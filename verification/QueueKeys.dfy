/** Names of queues in the store, and reading an address back from one. */
module QueueKeys {
  import opened Bincode
  import opened Text

  datatype Buffer = Sender | Receiver

  datatype Kind = ChunkQueue(buffer: Buffer) | PayloadQueue(buffer: Buffer) | UserQueue

  /** One logical queue: its kind and the protocol address it belongs to. */
  datatype QueueId = QueueId(kind: Kind, name: string, device: nat)

  function BufferText(b: Buffer): string {
    match b
    case Sender => "sender"
    case Receiver => "receiver"
  }

  function KindText(kind: Kind): (s: string)
    ensures ':' !in s
  {
    match kind
    case ChunkQueue(b) => "chunk_" + BufferText(b) + "_queue"
    case PayloadQueue(b) => "payload_" + BufferText(b) + "_queue"
    case UserQueue => "user_queue"
  }

  function KeyText(k: QueueId): string {
    KindText(k.kind) + "::" + AddressText(k.name, k.device)
  }

  function AddressText(name: string, device: nat): string {
    "{" + name + "::" + PrintNat(device) + "}"
  }

  lemma SameTailAfterColon(a: string, x: string, b: string, y: string)
    requires a + ":" + x == b + ":" + y
    requires ':' !in x && ':' !in y
    ensures a == b && x == y
  {
    var s, t := a + ":" + x, b + ":" + y;
    assert s[|a|] == ':' && t[|b|] == ':';
    assert forall i :: |a| < i < |s| ==> s[i] == x[i - |a| - 1];
    assert forall i :: |b| < i < |t| ==> t[i] == y[i - |b| - 1];
    assert |a| == |b|;
    assert s[..|a|] == a && t[..|b|] == b;
    assert s[|a| + 1..] == x && t[|b| + 1..] == y;
  }

  lemma KindTextInjective(a: Kind, b: Kind)
    ensures KindText(a) == KindText(b) <==> a == b
  {
    assert KindText(ChunkQueue(Receiver))[0] == 'c' && KindText(PayloadQueue(Sender))[0] == 'p';
    assert |BufferText(Sender)| != |BufferText(Receiver)|;
  }

  lemma AddressTextInjective(name: string, device: nat, name': string, device': nat)
    requires AddressText(name, device) == AddressText(name', device')
    ensures name == name' && device == device'
  {
    var x, y := PrintNat(device) + "}", PrintNat(device') + "}";
    var a, b := "{" + name + ":", "{" + name' + ":";
    assert AddressText(name, device) == a + ":" + x;
    assert AddressText(name', device') == b + ":" + y;
    SameTailAfterColon(a, x, b, y);
    assert a[1..|a| - 1] == name && b[1..|b| - 1] == name';
    assert x[..|x| - 1] == PrintNat(device) && y[..|y| - 1] == PrintNat(device');
    NatRoundTrip(device);
    NatRoundTrip(device');
  }

  /** Different queues never share a key, whatever kinds they are of and whatever their
      names contain. */
  lemma KeyTextInjective(k: QueueId, k': QueueId)
    ensures KeyText(k) == KeyText(k') <==> k == k'
  {
    if KeyText(k) == KeyText(k') {
      KeySplits(k);
      KeySplits(k');
      KindTextInjective(k.kind, k'.kind);
      AddressTextInjective(k.name, k.device, k'.name, k'.device);
    }
  }

  /** A key's first field is its kind, and what follows the second colon its address. */
  lemma KeySplits(k: QueueId)
    ensures Split(KeyText(k), ':')[0] == KindText(k.kind)
    ensures KeyText(k)[|KindText(k.kind)| + 2..] == AddressText(k.name, k.device)
  {
    var rest := ":" + AddressText(k.name, k.device);
    assert KeyText(k) == KindText(k.kind) + [':'] + rest;
    SplitField(KindText(k.kind), ':', rest);
  }

  /** As the store shows them. */
  lemma KeyExample()
    ensures KeyText(QueueId(UserQueue, "alice", 1)) == "user_queue::{alice::1}"
  {
    assert PrintNat(1) == "1";
  }

  lemma BufferKeyExamples()
    ensures KeyText(QueueId(PayloadQueue(Receiver), "", 2)) == "payload_receiver_queue::{::2}"
    ensures KeyText(QueueId(ChunkQueue(Sender), "", 2)) == "chunk_sender_queue::{::2}"
  {
    assert PrintNat(2) == "2";
    assert AddressText("", 2) == "{::2}";
  }

  // ---- Parsing ----

  /** Index of the first "::", or the length. */
  function FirstPair(s: string): (i: nat)
    ensures i <= |s|
    ensures i < |s| ==> i + 1 < |s| && s[i] == ':' && s[i + 1] == ':'
    ensures forall j :: 0 <= j < i && j + 1 < |s| ==> !(s[j] == ':' && s[j + 1] == ':')
  {
    if |s| < 2 then |s|
    else if s[0] == ':' && s[1] == ':' then 0
    else 1 + FirstPair(s[1..])
  }

  /** str::split("::"). */
  function SplitPairs(s: string): (parts: seq<string>)
    ensures parts != []
    decreases |s|
  {
    var i := FirstPair(s);
    if i == |s| then [s] else [s[..i]] + SplitPairs(s[i + 2..])
  }

  function TrimStart(s: string, c: char): (r: string)
    ensures |r| <= |s| && (|r| == |s| <==> s == "" || s[0] != c) && (|r| == |s| ==> r == s)
  {
    if s != "" && s[0] == c then TrimStart(s[1..], c) else s
  }

  function TrimEnd(s: string, c: char): (r: string)
    ensures |r| <= |s| && (|r| == |s| <==> s == "" || s[|s| - 1] != c) && (|r| == |s| ==> r == s)
  {
    if s != "" && s[|s| - 1] == c then TrimEnd(s[..|s| - 1], c) else s
  }

  /** Account and device text out of a key; None where indexing the parts would panic. */
  function ParseKey(key: string): Option<(string, string)> {
    var parts := SplitPairs(key);
    if |parts| < 3 then None
    else Some((TrimEnd(TrimStart(parts[1], '{'), '{'), TrimEnd(parts[2], '}')))
  }

  lemma PairFound(x: string, i: nat, s: string)
    requires i + 1 < |s| && s[i] == ':' && s[i + 1] == ':'
    ensures FirstPair(s) <= i
  {
  }

  /** Without "::" inside and without ':' at the end. */
  predicate NoPair(name: string) {
    && (forall i :: 0 <= i < |name| - 1 ==> !(name[i] == ':' && name[i + 1] == ':'))
    && (name != "" ==> name[|name| - 1] != ':')
  }

  predicate PlainName(name: string) {
    NoPair(name) && (name != "" ==> name[0] != '{' && name[|name| - 1] != '{')
  }

  lemma KeyParts(name: string, device: nat)
    ensures SplitPairs(KeyText(QueueId(UserQueue, name, device)))
      == ["user_queue"] + SplitPairs(AddressText(name, device))
  {
    var key := KeyText(QueueId(UserQueue, name, device));
    var prefix := "user_queue";
    assert key == prefix + "::" + AddressText(name, device);
    PairFound(prefix, |prefix|, key);
    assert forall j :: 0 <= j < |prefix| ==> key[j] == prefix[j];
    assert key[..|prefix|] == prefix && key[|prefix| + 2..] == AddressText(name, device);
  }

  /** The first "::" after the brace is the one the printer wrote, or an earlier one. */
  lemma FirstPairOfAddress(name: string, device: nat)
    ensures 0 < FirstPair(AddressText(name, device)) <= |name| + 1
    ensures FirstPair(AddressText(name, device)) == |name| + 1 <==> NoPair(name)
  {
    var address := AddressText(name, device);
    var i, head := FirstPair(address), |name| + 1;
    assert address[0] == '{' && address[head] == ':' && address[head + 1] == ':';
    assert forall j :: 0 <= j < |name| ==> address[j + 1] == name[j];
    PairFound(name, head, address);
    if i == head {
      forall j | 0 <= j < |name| - 1 ensures !(name[j] == ':' && name[j + 1] == ':') {
        assert !(address[j + 1] == ':' && address[j + 2] == ':');
      }
      assert name != "" ==> address[|name|] == name[|name| - 1];
    } else {
      assert name[i - 1] == ':';
      assert i < |name| ==> name[i] == ':';
    }
  }

  lemma DeviceParts(name: string, device: nat)
    requires FirstPair(AddressText(name, device)) == |name| + 1
    ensures SplitPairs(AddressText(name, device)) == ["{" + name, PrintNat(device) + "}"]
  {
    var address, last := AddressText(name, device), PrintNat(device) + "}";
    assert address[..|name| + 1] == "{" + name;
    assert address[|name| + 3..] == last;
    forall j | 0 <= j < |last| ensures last[j] != ':' {
      if j < |last| - 1 { assert PrintNat(device)[j] in PrintNat(device); }
    }
    assert FirstPair(last) == |last|;
  }

  /** Parsing a user queue's key never panics, and gives back the address it was made from
      exactly when the name is plain. */
  lemma KeyRoundTrip(name: string, device: nat)
    ensures var parsed := ParseKey(KeyText(QueueId(UserQueue, name, device)));
            parsed.Some? && (parsed.value == (name, PrintNat(device)) <==> PlainName(name))
  {
    KeyParts(name, device);
    FirstPairOfAddress(name, device);
    if FirstPair(AddressText(name, device)) == |name| + 1 {
      WholeName(name, device);
    } else {
      PartOfName(name, device);
    }
  }

  lemma WholeName(name: string, device: nat)
    requires NoPair(name) && FirstPair(AddressText(name, device)) == |name| + 1
    requires SplitPairs(KeyText(QueueId(UserQueue, name, device)))
      == ["user_queue"] + SplitPairs(AddressText(name, device))
    ensures var parsed := ParseKey(KeyText(QueueId(UserQueue, name, device)));
            parsed.Some? && (parsed.value == (name, PrintNat(device)) <==> PlainName(name))
  {
    DeviceParts(name, device);
    TrimDigits(device);
    var first := "{" + name;
    assert first[1..] == name;
    assert TrimStart(first, '{') == TrimStart(name, '{');
  }

  /** The name read back is shorter. */
  lemma PartOfName(name: string, device: nat)
    requires 0 < FirstPair(AddressText(name, device)) < |name| + 1 && !NoPair(name)
    requires SplitPairs(KeyText(QueueId(UserQueue, name, device)))
      == ["user_queue"] + SplitPairs(AddressText(name, device))
    ensures var parsed := ParseKey(KeyText(QueueId(UserQueue, name, device)));
            parsed.Some? && parsed.value != (name, PrintNat(device))
  {
    var address := AddressText(name, device);
    var i := FirstPair(address);
    var first := address[..i];
    assert SplitPairs(address) == [first] + SplitPairs(address[i + 2..]);
    assert first[0] == '{';
    assert |TrimEnd(TrimStart(first, '{'), '{')| < |first| <= |name|;
  }

  lemma TrimDigits(device: nat)
    ensures TrimEnd(PrintNat(device) + "}", '}') == PrintNat(device)
  {
    var d := PrintNat(device);
    assert (d + "}")[..|d|] == d;
    assert d[|d| - 1] in d;
  }
}
