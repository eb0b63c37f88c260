/** How the accounts behind a request's tool outputs classify its session, independent of order and repetition. */
module SessionResolution {
  import opened Options
  import opened Text

  datatype Resolution =
    | Canonical(account: string, hits: nat, misses: nat)
    | Split(accounts: seq<string>, hits: nat, misses: nat)
    | Orphan(misses: nat)

  function Owners(owners: seq<Option<string>>): set<string> {
    set i | 0 <= i < |owners| && owners[i].Some? :: owners[i].value
  }

  function Hits(owners: seq<Option<string>>): nat {
    if owners == [] then 0 else Hits(owners[..|owners| - 1]) + (if owners[|owners| - 1].Some? then 1 else 0)
  }

  /** Byte-wise string order. */
  predicate Less(a: string, b: string)
    decreases |a|
  {
    b != "" && (a == "" || a[0] < b[0] || (a[0] == b[0] && Less(a[1..], b[1..])))
  }

  ghost predicate Sorted(xs: seq<string>) {
    forall i, j | 0 <= i < j < |xs| :: Less(xs[i], xs[j])
  }

  /** No owner is an orphan, one owner is canonical, several are a split listed in order. */
  ghost predicate Classifies(owners: seq<Option<string>>, r: Resolution) {
    var all := Owners(owners);
    match r
    case Orphan(misses) => all == {} && misses == |owners|
    case Canonical(a, hits, misses) => all == {a} && hits == Hits(owners) && hits + misses == |owners|
    case Split(accounts, hits, misses) =>
      && |all| >= 2 && Sorted(accounts) && (forall x :: x in accounts <==> x in all)
      && hits == Hits(owners) && hits + misses == |owners|
  }

  lemma {:induction false} LessIrreflexive(a: string)
    ensures !Less(a, a)
  {
    if a != "" {
      LessIrreflexive(a[1..]);
    }
  }

  lemma {:induction false} LessAsymmetric(a: string, b: string)
    requires Less(a, b)
    ensures !Less(b, a)
  {
    if a != "" && a[0] == b[0] {
      LessAsymmetric(a[1..], b[1..]);
    }
  }

  lemma {:induction false} LessTotal(a: string, b: string)
    ensures Less(a, b) || a == b || Less(b, a)
  {
    if a != "" && b != "" && a[0] == b[0] {
      LessTotal(a[1..], b[1..]);
      assert a == [a[0]] + a[1..] && b == [b[0]] + b[1..];
    }
  }

  lemma {:induction false} LessTransitive(a: string, b: string, c: string)
    requires Less(a, b) && Less(b, c)
    ensures Less(a, c)
  {
    if a != "" && a[0] == b[0] && b[0] == c[0] {
      LessTransitive(a[1..], b[1..], c[1..]);
    }
  }

  /** A sorted list is determined by its members. */
  lemma {:induction false} SortedUnique(xs: seq<string>, ys: seq<string>)
    requires Sorted(xs) && Sorted(ys) && forall x :: x in xs <==> x in ys
    ensures xs == ys
  {
    assert xs != [] ==> xs[0] in xs;
    assert ys != [] ==> ys[0] in ys;
    if xs != [] {
      SameFirst(xs, ys);
      forall x
        ensures x in xs[1..] <==> x in ys[1..]
      {
        LessIrreflexive(xs[0]);
        assert x in xs <==> x == xs[0] || x in xs[1..];
        assert x in ys <==> x == ys[0] || x in ys[1..];
      }
      SortedUnique(xs[1..], ys[1..]);
      assert xs == [xs[0]] + xs[1..] && ys == [ys[0]] + ys[1..];
    }
  }

  lemma SameFirst(xs: seq<string>, ys: seq<string>)
    requires xs != [] && ys != [] && Sorted(xs) && Sorted(ys) && forall x :: x in xs <==> x in ys
    ensures xs[0] == ys[0]
  {
    assert xs[0] in xs && ys[0] in ys;
    var i :| 0 <= i < |ys| && ys[i] == xs[0];
    var j :| 0 <= j < |xs| && xs[j] == ys[0];
    if i > 0 && j > 0 {
      LessAsymmetric(xs[0], xs[j]);
    }
  }

  /** The answers for a list of ids, read off a map of owners. */
  function Answers(ids: seq<string>, table: map<string, string>): (r: seq<Option<string>>)
    ensures |r| == |ids|
  {
    seq(|ids|, i requires 0 <= i < |ids| => if ids[i] in table then Some(table[ids[i]]) else None)
  }

  ghost predicate Distinct(xs: seq<string>) {
    forall i, j | 0 <= i < j < |xs| :: xs[i] != xs[j]
  }

  function Members(xs: seq<string>): set<string> {
    set x | x in xs
  }

  function Known(ids: set<string>, table: map<string, string>): set<string> {
    set x | x in ids && x in table
  }

  function KnownOwners(ids: set<string>, table: map<string, string>): set<string> {
    set x | x in ids && x in table :: table[x]
  }

  lemma MembersSnoc(ids: seq<string>, x: string, table: map<string, string>)
    ensures Members(ids + [x]) == Members(ids) + {x}
    ensures Known(Members(ids + [x]), table) == if x in table then Known(Members(ids), table) + {x} else Known(Members(ids), table)
  {
    assert Members(ids + [x]) == Members(ids) + {x};
  }

  lemma {:induction false} HitsCount(ids: seq<string>, table: map<string, string>)
    requires Distinct(ids)
    ensures Hits(Answers(ids, table)) == |Known(Members(ids), table)|
    ensures |ids| == |Members(ids)|
  {
    hide Known, Members, Hits, Answers;
    if ids == [] {
      NothingKnown(table);
    } else {
      var n := |ids| - 1;
      HitsCount(ids[..n], table);
      assert ids[..n] + [ids[n]] == ids;
      HitsSnoc(ids[..n], ids[n], table);
      MembersSnoc(ids[..n], ids[n], table);
      NewMember(ids[..n], ids[n], table);
    }
  }

  lemma NothingKnown(table: map<string, string>)
    ensures Hits(Answers([], table)) == 0 && Members([]) == {} && Known(Members([]), table) == {}
  {
  }

  lemma HitsSnoc(ids: seq<string>, x: string, table: map<string, string>)
    ensures Hits(Answers(ids + [x], table)) == Hits(Answers(ids, table)) + (if x in table then 1 else 0)
  {
    assert Answers(ids + [x], table)[..|ids|] == Answers(ids, table);
  }

  lemma NewMember(ids: seq<string>, x: string, table: map<string, string>)
    requires x !in ids
    ensures x !in Members(ids) && x !in Known(Members(ids), table)
  {
  }

  lemma OwnersOfMembers(ids: seq<string>, table: map<string, string>)
    ensures Owners(Answers(ids, table)) == KnownOwners(Members(ids), table)
  {
    var r := Answers(ids, table);
    forall a | a in Owners(r)
      ensures a in KnownOwners(Members(ids), table)
    {
      var i :| 0 <= i < |r| && r[i].Some? && r[i].value == a;
      assert ids[i] in Members(ids);
    }
    forall x | x in Members(ids) && x in table
      ensures table[x] in Owners(r)
    {
      var i :| 0 <= i < |ids| && ids[i] == x;
      assert r[i] == Some(table[x]);
    }
  }

  /** Order and repetition of the ids do not matter: requests naming the same ids classify alike. */
  lemma OrderIrrelevant(a: seq<string>, b: seq<string>, table: map<string, string>, ra: Resolution, rb: Resolution)
    requires Members(UniqueTrimmed(a)) == Members(UniqueTrimmed(b))
    requires Classifies(Answers(UniqueTrimmed(a), table), ra) && Classifies(Answers(UniqueTrimmed(b), table), rb)
    ensures ra == rb
  {
    hide UniqueTrimmed, Known, KnownOwners, Owners, Hits, Members;
    var xs, ys := UniqueTrimmed(a), UniqueTrimmed(b);
    UniqueDistinct(a);
    UniqueDistinct(b);
    HitsCount(xs, table);
    HitsCount(ys, table);
    OwnersOfMembers(xs, table);
    OwnersOfMembers(ys, table);
    SameClass(Answers(xs, table), Answers(ys, table), ra, rb);
  }

  /** Answers with the same owners and counts have one resolution. */
  lemma SameClass(x: seq<Option<string>>, y: seq<Option<string>>, a: Resolution, b: Resolution)
    requires Owners(x) == Owners(y) && Hits(x) == Hits(y) && |x| == |y| && Classifies(x, a) && Classifies(y, b)
    ensures a == b
  {
    hide Owners, Hits;
    if a.Split? && b.Split? {
      SortedUnique(a.accounts, b.accounts);
    } else if a.Canonical? && b.Canonical? {
      assert a.account in {b.account};
    }
  }

  lemma UniqueDistinct(a: seq<string>)
    ensures Distinct(UniqueTrimmed(a))
  {
  }

  /** Insertion sort of the accounts seen. */
  method SortStrings(all: set<string>) returns (r: seq<string>)
    ensures Sorted(r) && forall x :: x in r <==> x in all
  {
    r := [];
    var rest := all;
    while rest != {}
      invariant Sorted(r) && rest <= all && forall x :: x in r <==> x in all - rest
      decreases |rest|
    {
      var x :| x in rest;
      r := Insert(r, x);
      rest := rest - {x};
    }
  }

  method Insert(xs: seq<string>, x: string) returns (r: seq<string>)
    requires Sorted(xs) && x !in xs
    ensures Sorted(r) && forall y :: y in r <==> y in xs || y == x
  {
    hide Less;
    var i := |xs|;
    while i > 0 && Less(x, xs[i - 1])
      invariant 0 <= i <= |xs| && forall j | i <= j < |xs| :: Less(x, xs[j])
    {
      i := i - 1;
    }
    r := xs[..i] + [x] + xs[i..];
    if i > 0 {
      LessTotal(x, xs[i - 1]);
      Below(xs, x, i);
    }
    Inserted(xs, x, i);
  }

  lemma Below(xs: seq<string>, x: string, i: nat)
    requires Sorted(xs) && 0 < i <= |xs| && Less(xs[i - 1], x)
    ensures forall j | 0 <= j < i :: Less(xs[j], x)
  {
    hide Less;
    forall j | 0 <= j < i
      ensures Less(xs[j], x)
    {
      if j < i - 1 {
        LessTransitive(xs[j], xs[i - 1], x);
      }
    }
  }

  lemma Inserted(xs: seq<string>, x: string, i: nat)
    requires Sorted(xs) && i <= |xs|
    requires (forall j | 0 <= j < i :: Less(xs[j], x)) && (forall j | i <= j < |xs| :: Less(x, xs[j]))
    ensures var r := xs[..i] + [x] + xs[i..]; Sorted(r) && forall y :: y in r <==> y in xs || y == x
  {
    hide Less;
    var r := xs[..i] + [x] + xs[i..];
    forall a, b | 0 <= a < b < |r|
      ensures Less(r[a], r[b])
    {
      assert r[a] == if a < i then xs[a] else if a == i then x else xs[a - 1];
      assert r[b] == if b < i then xs[b] else if b == i then x else xs[b - 1];
    }
    assert xs == xs[..i] + xs[i..];
  }

  /** The final switch on the number of accounts seen. */
  method Classify(owners: seq<Option<string>>) returns (r: Resolution)
    ensures Classifies(owners, r)
  {
    var accountSeen: set<string>, hits := {}, 0;
    for i := 0 to |owners|
      invariant accountSeen == Owners(owners[..i]) && hits == Hits(owners[..i]) && hits <= i
      invariant accountSeen == {} <==> hits == 0
    {
      assert owners[..i + 1][..i] == owners[..i];
      assert Owners(owners[..i + 1]) == if owners[i].Some? then Owners(owners[..i]) + {owners[i].value} else Owners(owners[..i]);
      if owners[i].Some? {
        accountSeen := accountSeen + {owners[i].value};
        hits := hits + 1;
      }
    }
    assert owners[..|owners|] == owners;
    var misses := |owners| - hits;
    if |accountSeen| == 0 {
      return Orphan(misses);
    } else if |accountSeen| == 1 {
      var a :| a in accountSeen;
      Singleton(accountSeen, a);
      return Canonical(a, hits, misses);
    } else {
      var accounts := SortStrings(accountSeen);
      return Split(accounts, hits, misses);
    }
  }

  lemma Singleton(s: set<string>, a: string)
    requires a in s && |s| == 1
    ensures s == {a}
  {
    assert |s - {a}| == 0;
  }
}
