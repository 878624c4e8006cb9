// sort.Slice by port and sort.Strings. The library's algorithm is not modelled: where the keys are distinct
// the sorted order is unique, so it cannot matter.
module Order {
  import opened Model

  ghost predicate SortedByPort(ps: seq<Proxy>) {
    forall i, j :: 0 <= i < j < |ps| ==> ps[i].port <= ps[j].port
  }

  function Insert(p: Proxy, ps: seq<Proxy>): (r: seq<Proxy>)
    ensures |r| == |ps| + 1
  {
    if ps == [] || p.port <= ps[0].port then [p] + ps else [ps[0]] + Insert(p, ps[1..])
  }

  lemma {:induction false} InsertContents(p: Proxy, ps: seq<Proxy>)
    ensures multiset(Insert(p, ps)) == multiset{p} + multiset(ps)
  {
    if ps != [] && p.port > ps[0].port {
      InsertContents(p, ps[1..]);
      assert ps == [ps[0]] + ps[1..];
    }
  }

  lemma {:induction false} InsertSorted(p: Proxy, ps: seq<Proxy>)
    requires SortedByPort(ps)
    ensures SortedByPort(Insert(p, ps))
  {
    if ps != [] && p.port > ps[0].port {
      var rest := Insert(p, ps[1..]);
      InsertSorted(p, ps[1..]);
      InsertContents(p, ps[1..]);
      assert rest[0] in multiset(rest);
      assert rest[0] == p || rest[0] in ps[1..];
      assert Insert(p, ps) == [ps[0]] + rest;
    }
  }

  function SortByPort(ps: seq<Proxy>): (r: seq<Proxy>)
    ensures |r| == |ps| && multiset(r) == multiset(ps)
    ensures forall q :: q in r <==> q in ps
    ensures SortedByPort(r)
  {
    if ps == [] then [] else
      var rest := SortByPort(ps[1..]);
      var r := Insert(ps[0], rest);
      SortStep(ps, rest);
      r
  }

  lemma SortStep(ps: seq<Proxy>, rest: seq<Proxy>)
    requires ps != [] && multiset(rest) == multiset(ps[1..]) && SortedByPort(rest)
    ensures var r := Insert(ps[0], rest);
            multiset(r) == multiset(ps) && SortedByPort(r) && forall q :: q in r <==> q in ps
  {
    InsertContents(ps[0], rest);
    InsertSorted(ps[0], rest);
    assert ps == [ps[0]] + ps[1..];
    SameMembers(Insert(ps[0], rest), ps);
  }

  lemma SameMembers(ps: seq<Proxy>, qs: seq<Proxy>)
    requires multiset(ps) == multiset(qs)
    ensures forall p :: p in ps <==> p in qs
  {
    assert forall p :: p in ps <==> p in multiset(ps);
    assert forall p :: p in qs <==> p in multiset(qs);
  }

  lemma TwinsAreTwo(qs: seq<Proxy>, i: int, j: int)
    requires 0 <= i < j < |qs| && qs[i] == qs[j]
    ensures multiset(qs)[qs[i]] >= 2
  {
    assert qs == qs[..j] + [qs[j]] + qs[j + 1..];
    assert qs[..j][i] in multiset(qs[..j]);
  }

  lemma UniqueByCount(ps: seq<Proxy>, qs: seq<Proxy>)
    requires multiset(ps) == multiset(qs) && UniquePorts(ps)
    ensures UniquePorts(qs)
  {
    SameMembers(ps, qs);
    forall i, j | 0 <= i < j < |qs|
      ensures qs[i].port != qs[j].port
    {
      assert qs[i] in qs && qs[j] in qs;
      if qs[i] == qs[j] {
        TwinsAreTwo(qs, i, j);
        NoTwins(ps, qs[i]);
      }
    }
  }

  lemma NoTwins(ps: seq<Proxy>, p: Proxy)
    requires UniquePorts(ps)
    ensures multiset(ps)[p] <= 1
  {
    if p in ps {
      var i :| 0 <= i < |ps| && ps[i] == p;
      assert ps == ps[..i] + [p] + ps[i + 1..];
      assert p !in ps[..i] && p !in ps[i + 1..];
    }
  }

  lemma FirstOfSorted(ps: seq<Proxy>, qs: seq<Proxy>)
    requires ps != [] && qs != [] && multiset(ps) == multiset(qs) && UniquePorts(ps)
    requires SortedByPort(ps) && SortedByPort(qs)
    ensures ps[0] == qs[0]
  {
    SameMembers(ps, qs);
    assert ps[0] in qs && qs[0] in ps;
    var i :| 0 <= i < |qs| && qs[i] == ps[0];
    var j :| 0 <= j < |ps| && ps[j] == qs[0];
  }

  lemma SameTails(ps: seq<Proxy>, qs: seq<Proxy>)
    requires ps != [] && qs != [] && ps[0] == qs[0] && multiset(ps) == multiset(qs)
    ensures multiset(ps[1..]) == multiset(qs[1..])
  {
    assert ps == [ps[0]] + ps[1..] && qs == [qs[0]] + qs[1..];
    assert multiset(ps[1..]) == multiset(ps) - multiset{ps[0]} == multiset(qs[1..]);
  }

  // Any two sorted arrangements of proxies with distinct ports are equal.
  lemma {:induction false} SortedUnique(ps: seq<Proxy>, qs: seq<Proxy>)
    requires multiset(ps) == multiset(qs) && UniquePorts(ps)
    requires SortedByPort(ps) && SortedByPort(qs)
    ensures ps == qs
  {
    assert |multiset(ps)| == |ps| && |multiset(qs)| == |qs|;
    if ps != [] {
      FirstOfSorted(ps, qs);
      SameTails(ps, qs);
      SortedUnique(ps[1..], qs[1..]);
      assert ps == [ps[0]] + ps[1..] && qs == [qs[0]] + qs[1..];
    }
  }

  // ---- texts in dictionary order ----

  predicate Before(a: string, b: string) {
    b != [] && (a == [] || a[0] < b[0] || (a[0] == b[0] && Before(a[1..], b[1..])))
  }

  lemma {:induction false} BeforeTotal(a: string, b: string)
    ensures Before(a, b) || a == b || Before(b, a)
  {
    if a != [] && b != [] && a[0] == b[0] {
      BeforeTotal(a[1..], b[1..]);
      assert a == [a[0]] + a[1..] && b == [b[0]] + b[1..];
    }
  }

  lemma {:induction false} BeforeTransitive(a: string, b: string, c: string)
    requires Before(a, b) && Before(b, c)
    ensures Before(a, c) && a != c
  {
    if a != [] && a[0] == b[0] && b[0] == c[0] {
      BeforeTransitive(a[1..], b[1..], c[1..]);
    }
  }

  ghost predicate Ascending(ns: seq<string>) {
    forall i, j :: 0 <= i < j < |ns| ==> Before(ns[i], ns[j])
  }

  function InsertName(n: string, ns: seq<string>): (r: seq<string>)
    ensures forall m :: m in r <==> m == n || m in ns
  {
    if ns == [] || Before(n, ns[0]) then [n] + ns
    else if n == ns[0] then ns
    else [ns[0]] + InsertName(n, ns[1..])
  }

  lemma {:induction false} InsertNameAscending(n: string, ns: seq<string>)
    requires Ascending(ns)
    ensures Ascending(InsertName(n, ns))
  {
    if ns != [] {
      if Before(n, ns[0]) {
        forall j | 0 <= j < |ns|
          ensures Before(n, ns[j])
        {
          if j > 0 { BeforeTransitive(n, ns[0], ns[j]); }
        }
      } else if n != ns[0] {
        BeforeTotal(n, ns[0]);
        InsertNameAscending(n, ns[1..]);
        var r := InsertName(n, ns[1..]);
        forall j | 0 <= j < |r|
          ensures Before(ns[0], r[j])
        {
          assert r[j] in r;
        }
      }
    }
  }

  lemma {:induction false} BeforeIrreflexive(a: string)
    ensures !Before(a, a)
  {
    if a != [] { BeforeIrreflexive(a[1..]); }
  }

  // A set of names has one ascending enumeration.
  lemma {:induction false} AscendingUnique(a: seq<string>, b: seq<string>)
    requires Ascending(a) && Ascending(b) && forall n :: n in a <==> n in b
    ensures a == b
  {
    if a == [] {
      assert forall k :: 0 <= k < |b| ==> b[k] in b;
    } else {
      assert a[0] in a;
      assert b != [];
      assert b[0] in b;
      if a[0] != b[0] {
        var i :| 0 <= i < |b| && b[i] == a[0];
        var j :| 0 <= j < |a| && a[j] == b[0];
        BeforeTransitive(a[0], b[0], a[0]);
      }
      forall n
        ensures n in a[1..] <==> n in b[1..]
      {
        BeforeIrreflexive(a[0]);
        assert forall k :: 0 < k < |a| ==> Before(a[0], a[k]);
        assert forall k :: 0 < k < |b| ==> Before(b[0], b[k]);
        assert a == [a[0]] + a[1..] && b == [b[0]] + b[1..];
        assert n in a[1..] ==> n in b && n != a[0];
        assert n in b[1..] ==> n in a && n != a[0];
      }
      AscendingUnique(a[1..], b[1..]);
    }
  }
}
