// The printers of internal/proxy/config.go as the transaction uses them, and what they do not depend on.
module Printers {
  import opened Model
  import opened Netip
  import opened Order
  import opened Text
  import opened Config
  import opened Apply
  import opened WholeRuns

  function Rendered(net: Codec, ps: seq<Proxy>): Option<string> {
    match RenderConfig(net, ps)
    case Ok(text) => Some(text)
    case Err(_) => None
  }

  // An environment that prints what the program prints.
  ghost predicate Faithful(env: Env) {
    && env.net.Lawful()
    && (forall ps :: env.render(ps) == Rendered(env.net, ps))
    && (forall ps, onlyLive :: env.list(ps, onlyLive) == FormatList(ps, onlyLive))
  }

  // ---- statuses do not reach the configuration or the full list ----

  predicate Alike(p: Proxy, q: Proxy) {
    Id(p) == Id(q) && p.enabled == q.enabled
  }

  lemma SameCons(p: Proxy, ps: seq<Proxy>, q: Proxy, qs: seq<Proxy>)
    requires Alike(p, q) && SameBut(ps, qs)
    ensures SameBut([p] + ps, [q] + qs)
  {
  }

  lemma SameTail(ps: seq<Proxy>, qs: seq<Proxy>)
    requires SameBut(ps, qs) && ps != []
    ensures Alike(ps[0], qs[0]) && SameBut(ps[1..], qs[1..])
  {
  }

  lemma {:induction false} InsertSame(p: Proxy, ps: seq<Proxy>, q: Proxy, qs: seq<Proxy>)
    requires Alike(p, q) && SameBut(ps, qs)
    ensures SameBut(Insert(p, ps), Insert(q, qs))
  {
    if ps == [] || p.port <= ps[0].port {
      SameCons(p, ps, q, qs);
    } else {
      SameTail(ps, qs);
      InsertSame(p, ps[1..], q, qs[1..]);
      SameCons(ps[0], Insert(p, ps[1..]), qs[0], Insert(q, qs[1..]));
    }
  }

  lemma {:induction false} SortSame(ps: seq<Proxy>, qs: seq<Proxy>)
    requires SameBut(ps, qs)
    ensures SameBut(SortByPort(ps), SortByPort(qs))
  {
    if ps != [] {
      SameTail(ps, qs);
      SortSame(ps[1..], qs[1..]);
      InsertSame(ps[0], SortByPort(ps[1..]), qs[0], SortByPort(qs[1..]));
    }
  }

  lemma {:induction false} ListSame(ps: seq<Proxy>, qs: seq<Proxy>)
    requires SameBut(ps, qs)
    ensures ListLines(ps, false) == ListLines(qs, false)
  {
    if ps != [] {
      SameTail(ps, qs);
      ListSame(ps[1..], qs[1..]);
    }
  }

  lemma {:induction false} ServicesSame(ps: seq<Proxy>, qs: seq<Proxy>)
    requires SameBut(ps, qs)
    ensures ServiceLines(ps) == ServiceLines(qs)
  {
    if ps != [] {
      SameTail(ps, qs);
      ServicesSame(ps[1..], qs[1..]);
    }
  }

  lemma {:induction false} NamesSame(ps: seq<Proxy>, qs: seq<Proxy>)
    requires SameBut(ps, qs)
    ensures SortedNames(ps) == SortedNames(qs)
  {
    if ps != [] {
      SameTail(ps, qs);
      NamesSame(ps[1..], qs[1..]);
    }
  }

  ghost predicate SameCollected(a: Result<(map<string, string>, seq<Proxy>), Reject>,
      b: Result<(map<string, string>, seq<Proxy>), Reject>) {
    match (a, b)
    case (Ok((us, ps)), Ok((vs, qs))) => us == vs && SameBut(ps, qs)
    case (Err(e), Err(f)) => e == f
    case _ => false
  }

  lemma {:induction false} CollectSame(net: Codec, ps: seq<Proxy>, qs: seq<Proxy>, i: nat, ports: set<int>,
      users: map<string, string>, a: seq<Proxy>, b: seq<Proxy>)
    requires SameBut(ps, qs) && i <= |ps| && SameBut(a, b)
    ensures SameCollected(Collect(net, ps, i, ports, users, a), Collect(net, qs, i, ports, users, b))
    decreases |ps| - i
  {
    if i < |ps| {
      var p, q := ps[i], qs[i];
      assert Alike(p, q);
      if !p.enabled {
        CollectSame(net, ps, qs, i + 1, ports, users, a, b);
      } else if FlawOf(net, p, ports, users).None? {
        assert SameBut(a + [p], b + [q]);
        CollectSame(net, ps, qs, i + 1, ports + {p.port}, users[p.username := p.password], a + [p], b + [q]);
      }
    }
  }

  lemma RenderSame(net: Codec, ps: seq<Proxy>, qs: seq<Proxy>)
    requires SameBut(ps, qs)
    ensures RenderConfig(net, ps) == RenderConfig(net, qs)
  {
    CollectSame(net, ps, qs, 0, {}, map[], [], []);
    match (Collect(net, ps, 0, {}, map[], []), Collect(net, qs, 0, {}, map[], []))
    case (Ok((us, a)), Ok((vs, b))) =>
      NamesSame(a, b);
      SortSame(a, b);
      ServicesSame(SortByPort(a), SortByPort(b));
    case _ =>
  }

  // The configuration and the full list do not show statuses, errors or times.
  lemma PrintersIgnoreStatus(net: Codec, ps: seq<Proxy>, qs: seq<Proxy>)
    requires SameBut(ps, qs)
    ensures RenderConfig(net, ps) == RenderConfig(net, qs) && FormatList(ps, false) == FormatList(qs, false)
  {
    RenderSame(net, ps, qs);
    SortSame(ps, qs);
    ListSame(SortByPort(ps), SortByPort(qs));
  }

  // So the coherence that WholeRuns.EveryRun keeps holds of the real printers.
  lemma FaithfulIsBlind(env: Env)
    requires Faithful(env)
    ensures StatusBlind(env)
  {
    forall ps, qs | SameBut(ps, qs)
      ensures env.render(ps) == env.render(qs) && env.list(ps, false) == env.list(qs, false)
    {
      PrintersIgnoreStatus(env.net, ps, qs);
    }
  }
}
