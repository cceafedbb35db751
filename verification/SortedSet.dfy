/** The store's sorted sets: members with scores, kept by score, ties by member text. */
module SortedSet {

  datatype Scored = Scored(score: nat, member: string)

  predicate LexLess(a: string, b: string) {
    b != "" && (a == "" || a[0] < b[0] || (a[0] == b[0] && LexLess(a[1..], b[1..])))
  }

  predicate Before(a: Scored, b: Scored) {
    a.score < b.score || (a.score == b.score && LexLess(a.member, b.member))
  }

  /** The order of texts, without recursion: behind a common prefix one text ends, or has the
      smaller character. */
  ghost predicate TextBefore(a: string, b: string) {
    exists n: nat :: CommonPrefix(a, b, n) && n < |b| && (n == |a| || a[n] < b[n])
  }

  ghost predicate CommonPrefix(a: string, b: string, n: nat) {
    n <= |a| && n <= |b| && a[..n] == b[..n]
  }

  lemma {:induction false} LexLessExactly(a: string, b: string)
    ensures LexLess(a, b) <==> TextBefore(a, b)
  {
    if b == "" || a == "" || a[0] != b[0] {
      if b != "" && (a == "" || a[0] < b[0]) { assert CommonPrefix(a, b, 0); }
    } else {
      LexLessExactly(a[1..], b[1..]);
      if n: nat :| CommonPrefix(a[1..], b[1..], n) && n < |b[1..]| && (n == |a[1..]| || a[1..][n] < b[1..][n]) {
        assert a[..n + 1] == [a[0]] + a[1..][..n] && b[..n + 1] == [b[0]] + b[1..][..n];
        assert CommonPrefix(a, b, n + 1);
      }
      if n: nat :| CommonPrefix(a, b, n) && n < |b| && (n == |a| || a[n] < b[n]) {
        assert a[..n][1..] == a[1..][..n - 1] && b[..n][1..] == b[1..][..n - 1];
        assert CommonPrefix(a[1..], b[1..], n - 1);
      }
    }
  }

  /** By score, and among equal scores by text. */
  ghost predicate ComesBefore(a: Scored, b: Scored) {
    a.score < b.score || (a.score == b.score && TextBefore(a.member, b.member))
  }

  lemma BeforeExactly(a: Scored, b: Scored)
    ensures Before(a, b) <==> ComesBefore(a, b)
  {
    LexLessExactly(a.member, b.member);
  }

  /** Strictly in order, and no member twice. */
  ghost predicate Sorted(z: seq<Scored>) {
    && (forall i, j :: 0 <= i < j < |z| ==> ComesBefore(z[i], z[j]))
    && (forall i, j :: 0 <= i < j < |z| ==> z[i].member != z[j].member)
  }

  predicate HasMember(z: seq<Scored>, member: string) {
    exists i :: 0 <= i < |z| && z[i].member == member
  }

  ghost predicate ByScore(z: seq<Scored>) {
    forall i, j :: 0 <= i < j < |z| ==> z[i].score <= z[j].score
  }

  function ZInsert(z: seq<Scored>, e: Scored): (r: seq<Scored>)
    ensures |r| == |z| + 1
  {
    if z == [] || Before(e, z[0]) then [e] + z else [z[0]] + ZInsert(z[1..], e)
  }

  /** ZADD NX: members already there stay as they are. */
  function ZAddNX(z: seq<Scored>, score: nat, member: string): seq<Scored> {
    if HasMember(z, member) then z else ZInsert(z, Scored(score, member))
  }

  function ZRem(z: seq<Scored>, member: string): (r: seq<Scored>)
    ensures |r| <= |z|
  {
    if z == [] then [] else (if z[0].member == member then [] else [z[0]]) + ZRem(z[1..], member)
  }

  /** ZADD: the number of new members says whether the member was absent. */
  function ZAdd(z: seq<Scored>, score: nat, member: string): (seq<Scored>, nat) {
    (ZInsert(ZRem(z, member), Scored(score, member)), if HasMember(z, member) then 0 else 1)
  }

  function ZRangeByScore(z: seq<Scored>, lo: nat, hi: nat): (r: seq<Scored>)
    ensures |r| <= |z|
  {
    if z == [] then []
    else (if lo <= z[0].score <= hi then [z[0]] else []) + ZRangeByScore(z[1..], lo, hi)
  }

  function ZRemRangeByScore(z: seq<Scored>, lo: nat, hi: nat): (r: seq<Scored>)
    ensures |r| <= |z|
  {
    if z == [] then []
    else (if lo <= z[0].score <= hi then [] else [z[0]]) + ZRemRangeByScore(z[1..], lo, hi)
  }

  /** LIMIT 0 n. */
  function Limit(z: seq<Scored>, n: nat): seq<Scored> {
    if |z| <= n then z else z[..n]
  }

  // ---- Laws ----

  ghost predicate ScoresRise(z: seq<Scored>) {
    forall i, j :: 0 <= i < j < |z| ==> z[i].score < z[j].score
  }

  lemma ApartAt(z: seq<Scored>, i: nat)
    requires i < |z| && ScoresRise(z)
    ensures z == z[..i] + [z[i]] + z[i + 1..]
    ensures forall x :: x in z[..i] ==> x.score < z[i].score
    ensures forall x :: x in z[i + 1..] ==> z[i].score < x.score
  {
    forall x | x in z[..i] ensures x.score < z[i].score {
      var j :| 0 <= j < i && z[j] == x;
    }
    forall x | x in z[i + 1..] ensures z[i].score < x.score {
      var j :| 0 <= j < |z[i + 1..]| && z[i + 1..][j] == x;
      assert x == z[i + 1 + j];
    }
  }

  lemma {:induction false} InsertBag(z: seq<Scored>, e: Scored)
    ensures multiset(ZInsert(z, e)) == multiset(z) + multiset{e}
    ensures forall x :: x in ZInsert(z, e) <==> x == e || x in z
  {
    if z != [] && !Before(e, z[0]) {
      InsertBag(z[1..], e);
      assert z == [z[0]] + z[1..];
    }
  }

  lemma {:induction false} InsertKeeps(z: seq<Scored>, e: Scored)
    requires ByScore(z)
    ensures ByScore(ZInsert(z, e))
  {
    if z != [] && !Before(e, z[0]) {
      InsertKeeps(z[1..], e);
      InsertBag(z[1..], e);
      var r := ZInsert(z[1..], e);
      forall i | 0 <= i < |r| ensures z[0].score <= r[i].score {
        assert r[i] in r;
      }
    }
  }

  /** Where a new entry lands among strictly scored ones. */
  lemma {:induction false} InsertAt(a: seq<Scored>, e: Scored, b: seq<Scored>)
    requires forall x :: x in a ==> x.score < e.score
    requires forall x :: x in b ==> e.score < x.score
    ensures ZInsert(a + b, e) == a + [e] + b
  {
    if a == [] {
      assert a + b == b;
      assert a + [e] + b == [e] + b;
    } else {
      assert (a + b)[1..] == a[1..] + b;
      InsertAt(a[1..], e, b);
      assert a + [e] + b == [a[0]] + (a[1..] + [e] + b);
    }
  }

  /** The one entry with a given score, found and removed. */
  lemma {:induction false} ScoreAt(a: seq<Scored>, e: Scored, b: seq<Scored>)
    requires forall x :: x in a + b ==> x.score != e.score
    ensures ZRangeByScore(a + [e] + b, e.score, e.score) == [e]
    ensures ZRemRangeByScore(a + [e] + b, e.score, e.score) == a + b
  {
    if a == [] {
      assert a + [e] + b == [e] + b;
      ScoreAbsent(b, e.score);
      assert a + b == b;
    } else {
      assert a[0] in a + b;
      assert (a + [e] + b)[1..] == a[1..] + [e] + b;
      forall x | x in a[1..] + b ensures x.score != e.score { assert x in a + b; }
      ScoreAt(a[1..], e, b);
      assert a + b == [a[0]] + (a[1..] + b);
    }
  }

  lemma {:induction false} ScoreAbsent(z: seq<Scored>, score: nat)
    requires forall x :: x in z ==> x.score != score
    ensures ZRangeByScore(z, score, score) == [] && ZRemRangeByScore(z, score, score) == z
  {
    if z != [] {
      assert z[0] in z;
      ScoreAbsent(z[1..], score);
      assert z == [z[0]] + z[1..];
    }
  }

  lemma {:induction false} MemberAt(a: seq<Scored>, e: Scored, b: seq<Scored>)
    requires !HasMember(a + b, e.member)
    ensures ZRem(a + [e] + b, e.member) == a + b
  {
    if a == [] {
      assert a + [e] + b == [e] + b && a + b == b;
      MemberAbsent(b, e.member);
    } else {
      assert (a + b)[0] == a[0];
      assert (a + [e] + b)[1..] == a[1..] + [e] + b;
      assert (a + b)[1..] == a[1..] + b;
      assert !HasMember(a[1..] + b, e.member) by {
        forall i | 0 <= i < |a[1..] + b| ensures (a[1..] + b)[i].member != e.member {
          assert (a + b)[i + 1] == (a[1..] + b)[i];
        }
      }
      MemberAt(a[1..], e, b);
      assert a + b == [a[0]] + (a[1..] + b);
    }
  }

  lemma {:induction false} MemberAbsent(z: seq<Scored>, member: string)
    requires !HasMember(z, member)
    ensures ZRem(z, member) == z
  {
    if z != [] {
      assert z[0].member != member;
      assert !HasMember(z[1..], member) by {
        forall i | 0 <= i < |z[1..]| ensures z[1..][i].member != member { assert z[i + 1].member != member; }
      }
      MemberAbsent(z[1..], member);
      assert z == [z[0]] + z[1..];
    }
  }

  lemma {:induction false} RemKeeps(z: seq<Scored>, member: string)
    ensures forall e :: e in ZRem(z, member) <==> e in z && e.member != member
    ensures ByScore(z) ==> ByScore(ZRem(z, member))
  {
    if z != [] {
      RemKeeps(z[1..], member);
      if ByScore(z) {
        var r := ZRem(z[1..], member);
        forall x | x in r ensures z[0].score <= x.score {
          var j :| 0 <= j < |z[1..]| && z[1..][j] == x;
          assert z[j + 1] == x;
        }
      }
    }
  }

  lemma {:induction false} RangeMembers(z: seq<Scored>, lo: nat, hi: nat)
    ensures forall e :: e in ZRangeByScore(z, lo, hi) <==> e in z && lo <= e.score <= hi
  {
    if z != [] { RangeMembers(z[1..], lo, hi); }
  }

  lemma MemberOf(index: seq<Scored>, member: string)
    ensures HasMember(index, member) <==> exists e :: e in index && e.member == member
  {
    if e :| e in index && e.member == member {
      var i :| 0 <= i < |index| && index[i] == e;
    }
    if HasMember(index, member) {
      var i :| 0 <= i < |index| && index[i].member == member;
      assert index[i] in index;
    }
  }

  lemma AddedMembers(index: seq<Scored>, score: nat, member: string)
    ensures forall e :: (e in ZAddNX(index, score, member)
                         <==> e in index || (!HasMember(index, member) && e == Scored(score, member)))
    ensures forall m :: HasMember(ZAddNX(index, score, member), m) <==> HasMember(index, m) || m == member
    ensures ByScore(index) ==> ByScore(ZAddNX(index, score, member))
  {
    InsertBag(index, Scored(score, member));
    if ByScore(index) { InsertKeeps(index, Scored(score, member)); }
    var index' := ZAddNX(index, score, member);
    forall m ensures HasMember(index', m) <==> HasMember(index, m) || m == member {
      MemberOf(index', m);
      MemberOf(index, m);
      if m == member && !HasMember(index, m) { assert Scored(score, member) in index'; }
    }
  }

  lemma RemovedMembers(index: seq<Scored>, member: string)
    ensures forall e :: e in ZRem(index, member) <==> e in index && e.member != member
    ensures forall m :: HasMember(ZRem(index, member), m) <==> HasMember(index, m) && m != member
    ensures ByScore(index) ==> ByScore(ZRem(index, member))
  {
    RemKeeps(index, member);
    forall m ensures HasMember(ZRem(index, member), m) <==> HasMember(index, m) && m != member {
      MemberOf(ZRem(index, member), m);
      MemberOf(index, m);
    }
  }

  // ---- The order of a sorted set ----

  lemma {:induction false} LexTotal(a: string, b: string)
    ensures !(LexLess(a, b) && LexLess(b, a)) && (LexLess(a, b) || LexLess(b, a) || a == b)
  {
    if a != "" && b != "" && a[0] == b[0] {
      LexTotal(a[1..], b[1..]);
      assert a == [a[0]] + a[1..] && b == [b[0]] + b[1..];
    }
  }

  lemma {:induction false} LexTransitive(a: string, b: string, c: string)
    requires LexLess(a, b) && LexLess(b, c)
    ensures LexLess(a, c)
  {
    if a != "" && a[0] == b[0] && b[0] == c[0] { LexTransitive(a[1..], b[1..], c[1..]); }
  }

  lemma OrderTotal(a: Scored, b: Scored)
    ensures !(ComesBefore(a, b) && ComesBefore(b, a)) && (ComesBefore(a, b) || ComesBefore(b, a) || a == b)
  {
    BeforeExactly(a, b);
    BeforeExactly(b, a);
    LexTotal(a.member, b.member);
  }

  lemma OrderTransitive(a: Scored, b: Scored, c: Scored)
    requires ComesBefore(a, b) && ComesBefore(b, c)
    ensures ComesBefore(a, c)
  {
    BeforeExactly(a, b);
    BeforeExactly(b, c);
    BeforeExactly(a, c);
    if a.score == b.score == c.score { LexTransitive(a.member, b.member, c.member); }
  }

  /** The first entry precedes what follows, which is sorted itself, and has another member. */
  lemma SortedHead(z: seq<Scored>)
    requires z != []
    ensures Sorted(z) <==> Sorted(z[1..]) && forall e :: e in z[1..] ==> ComesBefore(z[0], e) && e.member != z[0].member
  {
    var rest := z[1..];
    if Sorted(z) {
      forall e | e in rest ensures ComesBefore(z[0], e) && e.member != z[0].member {
        var j :| 0 <= j < |rest| && rest[j] == e;
        assert z[j + 1] == e;
      }
      forall i, j | 0 <= i < j < |rest| ensures ComesBefore(rest[i], rest[j]) && rest[i].member != rest[j].member {
        assert rest[i] == z[i + 1] && rest[j] == z[j + 1];
      }
    }
    if Sorted(rest) && forall e :: e in rest ==> ComesBefore(z[0], e) && e.member != z[0].member {
      forall i, j | 0 <= i < j < |z| ensures ComesBefore(z[i], z[j]) && z[i].member != z[j].member {
        assert z[j] == rest[j - 1] && rest[j - 1] in rest;
        if i > 0 { assert z[i] == rest[i - 1]; }
      }
    }
  }

  lemma {:induction false} InsertSorted(z: seq<Scored>, e: Scored)
    requires Sorted(z) && !HasMember(z, e.member)
    ensures Sorted(ZInsert(z, e))
  {
    var r := ZInsert(z, e);
    if z != [] {
      SortedHead(z);
      BeforeExactly(e, z[0]);
      assert z[0].member != e.member;
      if Before(e, z[0]) {
        assert r[1..] == z;
        forall x | x in z ensures ComesBefore(e, x) && x.member != e.member {
          var j :| 0 <= j < |z| && z[j] == x;
          if j > 0 {
            assert ComesBefore(z[0], z[j]);
            OrderTransitive(e, z[0], x);
          }
        }
      } else {
        OrderTotal(e, z[0]);
        assert !HasMember(z[1..], e.member) by {
          forall i | 0 <= i < |z[1..]| ensures z[1..][i].member != e.member { assert z[i + 1].member != e.member; }
        }
        InsertSorted(z[1..], e);
        InsertBag(z[1..], e);
        assert r[1..] == ZInsert(z[1..], e);
      }
      SortedHead(r);
    }
  }

  lemma {:induction false} RemSorted(z: seq<Scored>, member: string)
    requires Sorted(z)
    ensures Sorted(ZRem(z, member))
  {
    if z != [] {
      SortedHead(z);
      RemSorted(z[1..], member);
      RemKeeps(z[1..], member);
      var r := ZRem(z, member);
      if z[0].member != member {
        assert r[1..] == ZRem(z[1..], member);
        SortedHead(r);
      }
    }
  }

  lemma AddSorted(z: seq<Scored>, score: nat, member: string)
    requires Sorted(z)
    ensures Sorted(ZAddNX(z, score, member))
  {
    if !HasMember(z, member) { InsertSorted(z, Scored(score, member)); }
  }

  /** The order of a sorted set depends only on which entries there are. */
  lemma {:induction false} SortedUnique(a: seq<Scored>, b: seq<Scored>)
    requires Sorted(a) && Sorted(b) && forall e :: e in a <==> e in b
    ensures a == b
  {
    if a == [] {
      assert forall i :: 0 <= i < |b| ==> b[i] in b;
    } else {
      assert a[0] in b;
      SortedHead(a);
      SortedHead(b);
      SameFirst(a, b);
      forall e ensures e in a[1..] <==> e in b[1..] {
        if e in a[1..] { assert e in a && e.member != a[0].member; }
        if e in b[1..] { assert e in b && e.member != b[0].member; }
      }
      SortedUnique(a[1..], b[1..]);
      assert a == [a[0]] + a[1..] && b == [b[0]] + b[1..];
    }
  }

  lemma SameFirst(a: seq<Scored>, b: seq<Scored>)
    requires Sorted(a) && Sorted(b) && a != [] && b != [] && a[0] in b && b[0] in a
    ensures a[0] == b[0]
  {
    OrderTotal(a[0], b[0]);
    FirstOrLater(a, b[0]);
    FirstOrLater(b, a[0]);
  }

  lemma FirstOrLater(z: seq<Scored>, e: Scored)
    requires Sorted(z) && e in z
    ensures e == z[0] || ComesBefore(z[0], e)
  {
    var i :| 0 <= i < |z| && z[i] == e;
  }

  /** Two inserts commute. */
  lemma InsertsCommute(z: seq<Scored>, s: nat, m: string, t: nat, n: string)
    requires Sorted(z) && m != n
    ensures ZAddNX(ZAddNX(z, s, m), t, n) == ZAddNX(ZAddNX(z, t, n), s, m)
  {
    AddedMembers(z, s, m);
    AddedMembers(ZAddNX(z, s, m), t, n);
    AddedMembers(z, t, n);
    AddedMembers(ZAddNX(z, t, n), s, m);
    AddSorted(z, s, m);
    AddSorted(ZAddNX(z, s, m), t, n);
    AddSorted(z, t, n);
    AddSorted(ZAddNX(z, t, n), s, m);
    SortedUnique(ZAddNX(ZAddNX(z, s, m), t, n), ZAddNX(ZAddNX(z, t, n), s, m));
  }

  lemma SortedByScore(z: seq<Scored>)
    requires Sorted(z)
    ensures ByScore(z)
  {
    forall i, j | 0 <= i < j < |z| ensures z[i].score <= z[j].score { assert ComesBefore(z[i], z[j]); }
  }

  // ---- The first entries of a range ----

  /** The entries of z scored at most hi, the first n of them if there are more, in order. */
  ghost predicate FirstOfRange(z: seq<Scored>, hi: nat, n: nat, r: seq<Scored>) {
    && Sorted(r) && |r| <= n
    && (forall e :: e in r ==> e in z && e.score <= hi)
    && (forall e :: e in z && e.score <= hi && e !in r ==> |r| == n && forall x :: x in r ==> ComesBefore(x, e))
  }

  lemma {:induction false} RangeSorted(z: seq<Scored>, lo: nat, hi: nat)
    requires Sorted(z)
    ensures Sorted(ZRangeByScore(z, lo, hi))
  {
    if z != [] {
      SortedHead(z);
      RangeSorted(z[1..], lo, hi);
      RangeMembers(z[1..], lo, hi);
      var r := ZRangeByScore(z, lo, hi);
      if lo <= z[0].score <= hi {
        assert r[1..] == ZRangeByScore(z[1..], lo, hi);
        SortedHead(r);
      }
    }
  }

  lemma LimitIsFirst(z: seq<Scored>, hi: nat, n: nat)
    requires Sorted(z)
    ensures FirstOfRange(z, hi, n, Limit(ZRangeByScore(z, 0, hi), n))
  {
    RangeSorted(z, 0, hi);
    RangeMembers(z, 0, hi);
    LimitSorted(ZRangeByScore(z, 0, hi), n);
  }

  lemma LimitSorted(z: seq<Scored>, n: nat)
    requires Sorted(z)
    ensures var r := Limit(z, n);
      && Sorted(r) && |r| <= n && (forall e :: e in r ==> e in z)
      && (forall e :: e in z && e !in r ==> |r| == n && forall x :: x in r ==> ComesBefore(x, e))
  {
    var r := Limit(z, n);
    forall e, x | e in z && e !in r && x in r ensures ComesBefore(x, e) {
      var i :| 0 <= i < |r| && r[i] == x;
      var j :| 0 <= j < |z| && z[j] == e;
      assert j < |r| ==> r[j] == e;
      assert z[i] == x;
    }
  }
}
