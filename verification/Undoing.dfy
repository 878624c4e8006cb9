// When a failed transaction leaves the addresses of the interface as they were, and when it does not.
module Undoing {
  import opened Model
  import opened Netip
  import opened Store
  import opened Apply
  import opened ApplyLaws
  import opened Allocate
  import opened AllocateLaws
  import opened Operations

  predicate Undone(outcome: Outcome) {
    outcome.BindFailed? || outcome.RolledBack?
  }

  lemma FewerAliases(net: Codec, bound: set<string>, ps: seq<Proxy>, k: nat)
    requires k <= |ps| && NoAlias(net, bound, ps)
    ensures NoAlias(net, bound, ps[..k])
  {
    assert forall p :: p in ps[..k] ==> p in ps;
  }

  // Whatever the texts are: when removals succeed, a transaction that is rolled back loses no address that was bound
  // before exactly when no enabled proxy of the candidate names a bound address by another text. One that fails in the
  // middle of binding restores the bound set exactly when that holds of the proxies before the one that failed.
  lemma AliasesAreLost(env: Env, w: World, original: State, candidate: State)
    requires env.net.Lawful() && Decodable(w.files) && Load(w.files) == Ok(original) && KernelTexts(env.net, w.bound)
    requires RemovalsWork(env)
    ensures var (w', outcome) := ApplyCandidate(env, w, original, candidate);
            && (outcome.RolledBack? ==> (w.bound <= w'.bound <==> NoAlias(env.net, w.bound, candidate.proxies)))
            && (outcome.BindFailed? ==>
                  && env.net.parsePrefix(candidate.prefix).Some?
                  && (w'.bound == w.bound
                      <==> NoAlias(env.net, w.bound, candidate.proxies[..FailsAt(env, w, candidate)])))
            && (Undone(outcome) && NoAlias(env.net, w.bound, candidate.proxies) ==>
                  AddressesRestored(env.net, w.bound, w'.bound, original, candidate))
  {
    hide ApplyCandidate, NoAlias, KernelTexts, RemovalsWork;
    ApplyEffect(env, w, original, candidate);
    if ApplyCandidate(env, w, original, candidate).1.BindFailed? && NoAlias(env.net, w.bound, candidate.proxies) {
      FewerAliases(env.net, w.bound, candidate.proxies, FailsAt(env, w, candidate));
    }
  }

  // With removals that succeed and candidates without such texts, which those with canonical texts are: a transaction
  // that fails while adding an address, or at or after the state save, restores the bound set up to addresses that only
  // the original uses, and exactly when the original's enabled addresses were bound.
  lemma RollbackExact(env: Env, w: World, original: State, candidate: State)
    requires env.net.Lawful() && Decodable(w.files) && Load(w.files) == Ok(original) && KernelTexts(env.net, w.bound)
    requires CanonicalSet(env.net, candidate.proxies) || NoAlias(env.net, w.bound, candidate.proxies)
    requires RemovalsWork(env) && Undone(ApplyCandidate(env, w, original, candidate).1)
    ensures var after := ApplyCandidate(env, w, original, candidate).0.bound;
            && AddressesRestored(env.net, w.bound, after, original, candidate)
            && (CanonTexts(env.net, original.proxies) <= w.bound ==> after == w.bound)
  {
    AliasesAreLost(env, w, original, candidate);
  }

  // The two early returns remove nothing. They leave the interface as it was exactly when there was nothing to add:
  // before the first proxy outside the prefix, or at all.
  lemma EarlyReturnsLeak(env: Env, w: World, original: State, candidate: State)
    requires env.net.Lawful() && Decodable(w.files) && Load(w.files) == Ok(original) && KernelTexts(env.net, w.bound)
    ensures var (w', outcome) := ApplyCandidate(env, w, original, candidate);
            && (outcome.OutsidePrefix? ==>
                  && env.net.parsePrefix(candidate.prefix).Some?
                  && (w'.bound == w.bound <==> CanonTexts(env.net, BeforeOutside(env.net, candidate)) <= w.bound))
            && (outcome.ConfigFailed? ==> (w'.bound == w.bound <==> CanonTexts(env.net, candidate.proxies) <= w.bound))
            && (outcome.OutsidePrefix? || outcome.ConfigFailed? ==> w' == w.(bound := w'.bound, clock := w'.clock))
  {
    ApplyEffect(env, w, original, candidate);
  }

  // ---- deletion ----

  // The addresses a deletion unbinds: those some old proxy means by its text, unless that very text is still used.
  function Released(net: Codec, was: seq<Proxy>, remaining: set<string>, i: nat): set<string>
    requires i <= |was|
  {
    set p | p in was[i..] && p.ipv6 !in remaining :: net.Canon(p.ipv6)
  }

  lemma {:induction false} ReleaseExact(env: Env, w: World, was: seq<Proxy>, remaining: set<string>, i: nat)
    requires i <= |was| && KernelTexts(env.net, w.bound)
    ensures var w' := Release(env, w, was, remaining, i);
            && w' == w.(bound := w'.bound, clock := w'.clock)
            && w.bound - Released(env.net, was, remaining, i) <= w'.bound <= w.bound
            && (forall p :: p in was[i..] && p.ipv6 !in remaining && RemovalWorks(env, p.ipv6) ==>
                  env.net.Canon(p.ipv6) !in w'.bound)
            && (RemovalsWorkFrom(env, w.clock) ==> w'.bound == w.bound - Released(env.net, was, remaining, i))
    decreases |was| - i
  {
    if i < |was| {
      var p := was[i];
      assert was[i..] == [p] + was[i + 1..];
      assert Released(env.net, was, remaining, i)
          == (if p.ipv6 in remaining then {} else {env.net.Canon(p.ipv6)}) + Released(env.net, was, remaining, i + 1);
      RemovesOne(env, w, p.ipv6);
      ReleaseExact(env, if p.ipv6 in remaining then w else RemoveIPv6(env, w, p.ipv6), was, remaining, i + 1);
    }
  }

  // A deletion leaves the bound address of a remaining proxy in place exactly when no deleted proxy names the same
  // address by a text that no remaining proxy uses.
  lemma SurvivorKeepsAddress(env: Env, w: World, was: seq<Proxy>, kept: seq<Proxy>, q: Proxy)
    requires RemovalsWork(env) && KernelTexts(env.net, w.bound) && q in kept && env.net.Canon(q.ipv6) in w.bound
    ensures env.net.Canon(q.ipv6) in Release(env, w, was, TextsOf(kept), 0).bound
            <==> forall p :: p in was && p.ipv6 !in TextsOf(kept) ==> env.net.Canon(p.ipv6) != env.net.Canon(q.ipv6)
  {
    ReleaseExact(env, w, was, TextsOf(kept), 0);
    assert was[0..] == was;
  }
}
