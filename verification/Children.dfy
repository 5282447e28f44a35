/** Direct-child records, their deterministic order, and filtering by completed identities. */
module Children {
  import opened Prelude

  datatype ChildKind = Worker | Leaf | SubTL

  /** `aggregateDeclined` is the record's evidence that no aggregate pull request is required. */
  datatype Child = Child(
    id: string, kind: ChildKind, dispatchIntent: Option<string>, laneId: Option<string>, aggregateDeclined: bool)

  datatype Group = Group(order: int, records: seq<Child>)

  // ---- order by identity

  /** Lexicographic order on identities. */
  predicate Leq(a: string, b: string) {
    a == "" || (b != "" && (a[0] < b[0] || (a[0] == b[0] && Leq(a[1..], b[1..]))))
  }

  lemma {:induction false} LeqIsTotal(a: string, b: string)
    ensures Leq(a, b) || Leq(b, a)
    decreases |a|
  {
    if a != "" && b != "" && a[0] == b[0] { LeqIsTotal(a[1..], b[1..]); }
  }

  lemma {:induction false} LeqIsTransitive(a: string, b: string, c: string)
    requires Leq(a, b) && Leq(b, c)
    ensures Leq(a, c)
    decreases |a|
  {
    if a != "" && a[0] == b[0] && b[0] == c[0] { LeqIsTransitive(a[1..], b[1..], c[1..]); }
  }

  lemma FirstDiffers(a: string, b: string, i: nat)
    requires 0 < i < |a| && i < |b| && a[0] != b[0]
    ensures a[..i] != b[..i]
  {
    assert a[..i][0] == a[0] && b[..i][0] == b[0];
  }

  /** One identity comes before another exactly when it is a prefix, or is smaller at the first difference. */
  lemma {:induction false} LeqIsLexicographic(a: string, b: string)
    ensures Leq(a, b) <==>
              || a <= b
              || exists i :: 0 <= i < |a| && i < |b| && a[..i] == b[..i] && a[i] < b[i]
    decreases |a|
  {
    if a != "" && b != "" && a[0] == b[0] {
      var c, d := a[1..], b[1..];
      LeqIsLexicographic(c, d);
      if c <= d {
        assert a <= b by { assert b[..|a|] == [b[0]] + d[..|c|] == a; }
      }
      if i :| 0 <= i < |c| && i < |d| && c[..i] == d[..i] && c[i] < d[i] {
        assert a[..i + 1] == [a[0]] + c[..i] == [b[0]] + d[..i] == b[..i + 1];
        assert a[i + 1] < b[i + 1];
      }
      if a <= b { assert c == a[1..] == b[..|a|][1..] == d[..|c|]; }
      if i :| 0 <= i < |a| && i < |b| && a[..i] == b[..i] && a[i] < b[i] {
        assert i > 0 && c[..i - 1] == a[..i][1..] == b[..i][1..] == d[..i - 1];
        assert c[i - 1] < d[i - 1];
      }
    } else if a != "" && b != "" {
      if a[0] < b[0] { assert a[..0] == b[..0]; }
      if i :| 0 < i < |a| && i < |b| && a[..i] == b[..i] { FirstDiffers(a, b, i); assert false; }
    }
  }

  predicate Ordered(s: seq<Child>) {
    forall i, j :: 0 <= i < j < |s| ==> Leq(s[i].id, s[j].id)
  }

  function Insert(c: Child, s: seq<Child>): seq<Child> {
    if s == [] then [c]
    else if Leq(c.id, s[0].id) then [c] + s
    else [s[0]] + Insert(c, s[1..])
  }

  /** The stable sort by child identity. */
  function SortedRecords(s: seq<Child>): seq<Child> {
    if s == [] then [] else Insert(s[0], SortedRecords(s[1..]))
  }

  lemma {:induction false} InsertKeepsOrder(c: Child, s: seq<Child>)
    requires Ordered(s)
    ensures Ordered(Insert(c, s)) && multiset(Insert(c, s)) == multiset{c} + multiset(s)
  {
    hide Leq;
    if s == [] {
    } else if Leq(c.id, s[0].id) {
      forall j | 0 <= j < |s| ensures Leq(c.id, s[j].id) {
        if j > 0 { LeqIsTransitive(c.id, s[0].id, s[j].id); }
      }
    } else {
      var rest := Insert(c, s[1..]);
      InsertKeepsOrder(c, s[1..]);
      assert s == [s[0]] + s[1..];
      forall j | 0 <= j < |rest| ensures Leq(s[0].id, rest[j].id) {
        LeqIsTotal(s[0].id, c.id);
        assert rest[j] in multiset(rest);
        if rest[j] != c { var k :| 0 <= k < |s[1..]| && s[1..][k] == rest[j]; }
      }
    }
  }

  /** Sorting yields the same records in identity order. */
  lemma {:induction false} SortIsOrdered(s: seq<Child>)
    ensures Ordered(SortedRecords(s)) && multiset(SortedRecords(s)) == multiset(s)
  {
    if s != [] {
      SortIsOrdered(s[1..]);
      InsertKeepsOrder(s[0], SortedRecords(s[1..]));
      assert s == [s[0]] + s[1..];
    }
  }

  /** So normalizing an already ordered group changes nothing. */
  lemma {:induction false} SortKeepsOrdered(s: seq<Child>)
    requires Ordered(s)
    ensures SortedRecords(s) == s
  {
    if |s| > 1 {
      SortKeepsOrdered(s[1..]);
      assert Leq(s[0].id, s[1].id);
    }
  }

  /** The records under one identity, in order. */
  function Under(s: seq<Child>, id: string): seq<Child> {
    if s == [] then [] else (if s[0].id == id then [s[0]] else []) + Under(s[1..], id)
  }

  lemma LeqIsReflexive(a: string)
    ensures Leq(a, a)
  {
    LeqIsTotal(a, a);
  }

  lemma {:induction false} InsertIsStable(c: Child, s: seq<Child>, id: string)
    ensures Under(Insert(c, s), id) == (if c.id == id then [c] else []) + Under(s, id)
  {
    if s == [] {
    } else if Leq(c.id, s[0].id) {
      assert ([c] + s)[1..] == s;
    } else {
      LeqIsReflexive(c.id);
      InsertIsStable(c, s[1..], id);
      assert Insert(c, s)[1..] == Insert(c, s[1..]);
    }
  }

  /** Records that share an identity keep their order. */
  lemma {:induction false} SortIsStable(s: seq<Child>, id: string)
    ensures Under(SortedRecords(s), id) == Under(s, id)
  {
    if s != [] {
      SortIsStable(s[1..], id);
      InsertIsStable(s[0], SortedRecords(s[1..]), id);
    }
  }

  // ---- unique identities

  predicate Unique(s: seq<Child>) {
    forall i, j :: 0 <= i < j < |s| ==> s[i].id != s[j].id
  }

  predicate Disjoint(s: seq<Child>, t: seq<Child>) {
    forall c, d :: c in s && d in t ==> c.id != d.id
  }

  lemma UniqueSplit(s: seq<Child>, t: seq<Child>)
    ensures Unique(s + t) <==> Unique(s) && Unique(t) && Disjoint(s, t)
  {
    var u := s + t;
    if Unique(u) {
      assert forall i :: 0 <= i < |s| ==> u[i] == s[i];
      assert forall j :: 0 <= j < |t| ==> u[|s| + j] == t[j];
    }
  }

  function Ids(s: seq<Child>): set<string> {
    set c | c in s :: c.id
  }

  lemma {:induction false} UniqueCount(s: seq<Child>)
    requires Unique(s)
    ensures |Ids(s)| == |s|
  {
    if s == [] {
    } else {
      UniqueCount(s[1..]);
      assert s == [s[0]] + s[1..];
      assert Ids(s) == {s[0].id} + Ids(s[1..]);
      assert s[0].id !in Ids(s[1..]) by {
        forall c | c in s[1..] ensures c.id != s[0].id {
          var k :| 0 <= k < |s[1..]| && s[1..][k] == c;
          assert s[k + 1] == c;
        }
      }
    }
  }

  // ---- filtering

  /** The records whose identity is not gone, in order. */
  function Without(s: seq<Child>, gone: set<string>): (r: seq<Child>)
    ensures forall c :: c in r <==> c in s && c.id !in gone
  {
    if s == [] then []
    else if s[0].id in gone then Without(s[1..], gone)
    else [s[0]] + Without(s[1..], gone)
  }

  lemma {:induction false} WithoutTwice(s: seq<Child>, gone: set<string>, more: set<string>)
    ensures Without(Without(s, gone), more) == Without(s, gone + more)
  {
    if s != [] {
      WithoutTwice(s[1..], gone, more);
      if s[0].id !in gone {
        assert Without(s, gone)[1..] == Without(s[1..], gone);
      }
    }
  }

  lemma {:induction false} WithoutAbsent(s: seq<Child>, gone: set<string>)
    requires forall c :: c in s ==> c.id !in gone
    ensures Without(s, gone) == s
  {
    if s != [] { WithoutAbsent(s[1..], gone); }
  }

  lemma {:induction false} WithoutKeepsOrder(s: seq<Child>, gone: set<string>)
    requires Ordered(s)
    ensures Ordered(Without(s, gone))
  {
    if s != [] {
      var rest := Without(s[1..], gone);
      WithoutKeepsOrder(s[1..], gone);
      forall j | 0 <= j < |rest| ensures Leq(s[0].id, rest[j].id) {
        assert rest[j] in s[1..];
      }
    }
  }

  lemma {:induction false} WithoutKeepsUnique(s: seq<Child>, gone: set<string>)
    requires Unique(s)
    ensures Unique(Without(s, gone))
  {
    if s != [] {
      var rest := Without(s[1..], gone);
      WithoutKeepsUnique(s[1..], gone);
      forall j | 0 <= j < |rest| ensures s[0].id != rest[j].id {
        assert rest[j] in s[1..];
      }
    }
  }

  lemma WithoutKeeps(s: seq<Child>, gone: set<string>)
    ensures Ordered(s) ==> Ordered(Without(s, gone))
    ensures Unique(s) ==> Unique(Without(s, gone))
  {
    if Ordered(s) { WithoutKeepsOrder(s, gone); }
    if Unique(s) { WithoutKeepsUnique(s, gone); }
  }

  /** The first record with this identity. */
  function Find(s: seq<Child>, id: string): (r: Option<Child>)
    ensures r.None? <==> forall c :: c in s ==> c.id != id
    ensures r.Some? ==> r.value in s && r.value.id == id
  {
    if s == [] then None else if s[0].id == id then Some(s[0]) else Find(s[1..], id)
  }
}
