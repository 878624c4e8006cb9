// ProbeRoutedPrefix of internal/system/host.go: an address of the prefix that looks unused is bound, tried and removed.
module PrefixProbe {
  import opened Model
  import opened Netip
  import opened AddOffset
  import opened Allocate
  import opened FirstFit
  import opened Apply
  import opened ApplyLaws

  const ATTEMPTS := 4096

  // From offset o on, the first address that is not bound, or the last one tried even if it is; nothing past the prefix.
  function Candidate(net: Codec, base: nat, cap: nat, current: set<string>, o: nat): (r: Option<nat>)
    requires 1 <= o <= ATTEMPTS
    ensures r.Some? ==> o <= r.value <= ATTEMPTS && r.value < cap
    decreases ATTEMPTS - o
  {
    if o >= cap then None
    else if At(net, base, o) !in current || o == ATTEMPTS then Some(o)
    else Candidate(net, base, cap, current, o + 1)
  }

  // routed says whether the network then answered under the new address.
  function ProbePrefix(env: Env, w: World, prefixText: string, routed: bool): (World, bool)
    requires env.net.Lawful()
  {
    match env.net.parsePrefix(prefixText)
    case None => (w, false)
    case Some(prefix) =>
      if !prefix.addr.V6? then (w, false)
      else
        var (w1, current) := CurrentIPv6(env, w);
        if current.None? then (w1, false)
        else match Candidate(env.net, Masked(prefix), Capacity(prefix), current.value, 1)
          case None => (w1, false)
          case Some(o) =>
            var text := At(env.net, Masked(prefix), o);
            var (w2, ok) := AddIPv6(env, w1, text);
            if !ok then (w2, false) else (RemoveIPv6(env, w2, text), routed)
  }

  lemma CandidateStep(net: Codec, prefix: Prefix, current: set<string>, o: nat)
    requires WellSized(prefix) && prefix.addr.V6? && 1 <= o <= ATTEMPTS
    ensures var base, cap := Masked(prefix), Capacity(prefix);
            && (base + o >= ADDRESSES || !Contains(prefix, V6(base + o, "")) <==> o >= cap)
            && Candidate(net, base, cap, current, o)
                 == if o >= cap then None
                    else if net.format(base + o) !in current || o == ATTEMPTS then Some(o)
                    else Candidate(net, base, cap, current, o + 1)
  {
    hide Pow2, AlignDown, Contains;
    PrefixHolds(prefix, o);
  }

  // The address itself, as the loop of the source walks to it.
  method FindCandidate(net: Codec, prefix: Prefix, current: set<string>) returns (r: Option<nat>)
    requires net.Lawful() && WellSized(prefix) && prefix.addr.V6?
    ensures r == match Candidate(net, Masked(prefix), Capacity(prefix), current, 1)
                 case None => None
                 case Some(o) => Some(Masked(prefix) + o)
  {
    hide Pow2, AlignDown, Contains, Candidate;
    var base := Masked(prefix);
    var candidate := base;
    ghost var answer := Candidate(net, base, Capacity(prefix), current, 1);
    for attempts := 0 to ATTEMPTS
      invariant candidate == base + attempts
      invariant answer == if attempts < ATTEMPTS then Candidate(net, base, Capacity(prefix), current, attempts + 1)
                          else Some(ATTEMPTS)
    {
      CandidateStep(net, prefix, current, attempts + 1);
      candidate := candidate + 1;
      if candidate >= ADDRESSES || !Contains(prefix, V6(candidate, "")) {
        return None;
      }
      if net.format(candidate) !in current {
        return Some(candidate);
      }
    }
    return Some(candidate);
  }

  // The first 4096 addresses after the first of the prefix are bound, and the prefix is not used up by them.
  ghost predicate Crowded(net: Codec, base: nat, cap: nat, bound: set<string>) {
    cap > 4096 && forall o: nat :: 1 <= o <= 4096 ==> At(net, base, o) in bound
  }

  lemma {:induction false} CandidateIsFree(net: Codec, base: nat, cap: nat, current: set<string>, o: nat)
    requires 1 <= o <= ATTEMPTS && forall i: nat :: 1 <= i < o ==> At(net, base, i) in current
    ensures var r := Candidate(net, base, cap, current, o);
            && (r.Some? && At(net, base, r.value) in current <==> Crowded(net, base, cap, current))
            && (Crowded(net, base, cap, current) ==> r == Some(ATTEMPTS))
    decreases ATTEMPTS - o
  {
    if o < cap && o < ATTEMPTS && At(net, base, o) in current {
      CandidateIsFree(net, base, cap, current, o + 1);
    }
  }

  predicate RoutedV6(net: Codec, prefixText: string) {
    net.parsePrefix(prefixText).Some? && net.parsePrefix(prefixText).value.addr.V6?
  }

  ghost predicate CrowdedPrefix(net: Codec, prefixText: string, bound: set<string>)
    requires net.Lawful() && RoutedV6(net, prefixText)
  {
    var prefix := net.parsePrefix(prefixText).value;
    Crowded(net, Masked(prefix), Capacity(prefix), bound)
  }

  // For every fault schedule: only the bound set changes, nothing goes from it unless it is crowded, and a probe that
  // succeeds was answered.
  lemma ProbeEffect(env: Env, w: World, prefixText: string, routed: bool)
    requires env.net.Lawful() && KernelTexts(env.net, w.bound)
    ensures var (w', ok) := ProbePrefix(env, w, prefixText, routed);
            && w' == w.(bound := w'.bound, clock := w'.clock) && KernelTexts(env.net, w'.bound)
            && (ok ==> routed && RoutedV6(env.net, prefixText))
            && (w.bound <= w'.bound || (RoutedV6(env.net, prefixText) && CrowdedPrefix(env.net, prefixText, w.bound)))
  {
    var parsed := env.net.parsePrefix(prefixText);
    if parsed.Some? && parsed.value.addr.V6? && CurrentIPv6(env, w).1.Some? {
      var base, cap := Masked(parsed.value), Capacity(parsed.value);
      PrefixRoom(parsed.value);
      var o := Candidate(env.net, base, cap, w.bound, 1);
      CandidateIsFree(env.net, base, cap, w.bound, 1);
      if o.Some? {
        env.net.FormatCanonical(base + o.value);
      }
    }
  }

  lemma TriedAndRemoved(env: Env, w: World, ip: nat)
    requires env.net.Lawful() && ip < ADDRESSES && RemovalsWork(env) && AdditionsWork(env)
    ensures var text := env.net.format(ip);
            var (w1, ok) := AddIPv6(env, w, text);
            ok && RemoveIPv6(env, w1, text).bound == w.bound - {text}
  {
    var text := env.net.format(ip);
    env.net.FormatCanonical(ip);
    assert !env.fails(w.clock, AddAddress(text)) && !env.fails(w.clock + 1, RemoveAddress(text));
    assert w.bound + {text} - {text} == w.bound - {text};
  }

  // When nothing fails, a probe leaves the interface as it was exactly when it is not crowded. When it is, the last
  // address tried is one that was bound before, and the probe removes it.
  lemma ProbeExact(env: Env, w: World, prefixText: string, routed: bool)
    requires env.net.Lawful() && KernelTexts(env.net, w.bound)
    requires RemovalsWork(env) && AdditionsWork(env) && !env.fails(w.clock, ReadAddresses)
    requires RoutedV6(env.net, prefixText)
    ensures var last := At(env.net, Masked(env.net.parsePrefix(prefixText).value), 4096);
            var (w', ok) := ProbePrefix(env, w, prefixText, routed);
            && (w'.bound == w.bound <==> !CrowdedPrefix(env.net, prefixText, w.bound))
            && (CrowdedPrefix(env.net, prefixText, w.bound) ==>
                  ok == routed && last in w.bound && w'.bound == w.bound - {last})
  {
    hide Pow2, AlignDown, Candidate, Crowded, RemovalsWork, KernelTexts;
    var prefix := env.net.parsePrefix(prefixText).value;
    var base, cap := Masked(prefix), Capacity(prefix);
    PrefixRoom(prefix);
    CandidateIsFree(env.net, base, cap, w.bound, 1);
    var o := Candidate(env.net, base, cap, w.bound, 1);
    if o.Some? {
      TriedAndRemoved(env, CurrentIPv6(env, w).0, base + o.value);
    }
  }
}
