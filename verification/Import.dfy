// importExisting of internal/app/service.go: taking over the proxies of an older installation from its text list
// and its 3proxy configuration.
module Import {
  import opened Model
  import opened Text
  import opened Netip
  import opened Order
  import opened Config
  import opened ConfigLaws
  import opened ListLaws
  import opened Store
  import opened Lists
  import opened AllocateLaws
  import opened Allocate
  import H = History

  // What reading a file gives.
  datatype FileRead = Absent | Failed | Contents(text: string)

  datatype ImportError = CannotRead | BadList(why: ListError) | NoServices

  // The services of the first configuration that can be read and has any.
  function FirstServices(configs: seq<Option<string>>): map<int, Imported> {
    if configs == [] then map[]
    else
      var parsed := if configs[0].Some? then Parse3ProxyServices(configs[0].value) else map[];
      if |parsed| > 0 then parsed else FirstServices(configs[1..])
  }

  predicate Usable(e: Entry, services: map<int, Imported>) {
    e.port in services && services[e.port].ipv6 != ""
  }

  function Taken(e: Entry, services: map<int, Imported>): Proxy
    requires Usable(e, services)
  {
    Proxy(e.host, e.port, services[e.port].ipv6, e.username, e.password, true, Pending, "", 0)
  }

  // One entry taken over: the proxy is appended and the cursor kept above it.
  function With(s: State, e: Entry, services: map<int, Imported>): State
    requires Usable(e, services)
  {
    s.(proxies := s.proxies + [Taken(e, services)], nextPort := if e.port >= s.nextPort then e.port + 1 else s.nextPort)
  }

  // The loop over the entries, from k on.
  function TakeFrom(entries: seq<Entry>, services: map<int, Imported>, k: nat, s: State): State
    requires k <= |entries|
    decreases |entries| - k
  {
    if k == |entries| then s
    else
      var e := entries[k];
      TakeFrom(entries, services, k + 1, if Usable(e, services) then With(s, e, services) else s)
  }

  function Imports(net: Codec, s: State, list: FileRead, configs: seq<Option<string>>): Result<State, ImportError> {
    match list
    case Absent => Ok(s)
    case Failed => Err(CannotRead)
    case Contents(text) =>
      if TrimSpace(text) == "" then Ok(s)
      else match ParseList(net, text)
        case Err(e) => Err(BadList(e))
        case Ok(entries) =>
          var services := FirstServices(configs);
          if |services| == 0 then Err(NoServices) else Ok(TakeFrom(entries, services, 0, s))
  }

  method FirstServicesLoop(configs: seq<Option<string>>) returns (services: map<int, Imported>)
    ensures services == FirstServices(configs)
  {
    services := map[];
    for i := 0 to |configs|
      invariant services == map[] && FirstServices(configs) == FirstServices(configs[i..])
    {
      assert configs[i..][1..] == configs[i + 1..];
      if configs[i].None? {
        continue;
      }
      var parsed := Parse3ProxyServicesText(configs[i].value);
      if |parsed| > 0 {
        services := parsed;
        return;
      }
    }
  }

  // The error and the state go together: on an error the caller saves nothing.
  method ImportExisting(net: Codec, ref: StateRef, list: FileRead,
      configs: seq<Option<string>>) returns (failure: Option<ImportError>)
    modifies ref
    ensures match Imports(net, old(ref.state), list, configs)
            case Ok(s) => failure == None && ref.state == s
            case Err(e) => failure == Some(e) && ref.state == old(ref.state)
  {
    match list {
      case Absent => return None;
      case Failed => return Some(CannotRead);
      case Contents(text) =>
        if TrimSpace(text) == "" {
          return None;
        }
        var parsed := ParseListText(net, text);
        if parsed.Err? {
          return Some(BadList(parsed.error));
        }
        var entries := parsed.value;
        var services := FirstServicesLoop(configs);
        if |services| == 0 {
          return Some(NoServices);
        }
        var s := ref.state;
        var proxies, maxPort := s.proxies, s.nextPort;
        for k := 0 to |entries|
          invariant ref.state == s
          invariant TakeFrom(entries, services, 0, s)
                 == TakeFrom(entries, services, k, s.(proxies := proxies, nextPort := maxPort))
        {
          var e := entries[k];
          if e.port !in services || services[e.port].ipv6 == "" {
            continue;
          }
          proxies := proxies + [Proxy(e.host, e.port, services[e.port].ipv6, e.username, e.password, true, Pending, "", 0)];
          if e.port >= maxPort {
            maxPort := e.port + 1;
          }
        }
        ref.state := s.(proxies := proxies, nextPort := maxPort);
        return None;
    }
  }

  // ---- nothing imported can collide with what is created later ----

  lemma {:induction false} CursorAbove(entries: seq<Entry>, services: map<int, Imported>, k: nat, s: State)
    requires k <= |entries| && forall p :: p in s.proxies ==> p.port < s.nextPort
    ensures var s' := TakeFrom(entries, services, k, s);
            s'.nextPort >= s.nextPort && forall p :: p in s'.proxies ==> p.port < s'.nextPort
    decreases |entries| - k
  {
    if k < |entries| {
      var e := entries[k];
      if Usable(e, services) {
        CursorAbove(entries, services, k + 1, With(s, e, services));
      } else {
        CursorAbove(entries, services, k + 1, s);
      }
    }
  }

  // Whatever the old files say, duplicates included: after an import into a state without proxies the port cursor
  // is above every imported port, and a following Allocate gives out no imported port, no text of an imported address,
  // and no address that was imported under its canonical text. An address imported under another text it can give out
  // (Lifetime.ReusedExactlyWhen says when, Inputs.ImportedAddressGivenTwice is an input).
  lemma AllocateAvoidsImported(net: Codec, s: State, list: FileRead, configs: seq<Option<string>>, opts: Options,
      entropy: Entropy)
    requires net.Lawful() && s.proxies == [] && Imports(net, s, list, configs).Ok?
    ensures var s1 := Imports(net, s, list, configs).value;
            && s1.nextPort >= s.nextPort && (forall p :: p in s1.proxies ==> p.port < s1.nextPort)
            && (Allocated(net, s1, opts, entropy).Ok? ==>
                  forall p, q :: p in s1.proxies && q in Allocated(net, s1, opts, entropy).value.1 ==>
                    && p.port < q.port && p.ipv6 != q.ipv6
                    && (net.Canonical(p.ipv6) ==> net.Canon(p.ipv6) != net.Canon(q.ipv6)))
  {
    var s1 := Imports(net, s, list, configs).value;
    if s1 != s {
      CursorAbove(ParseList(net, list.text).value, FirstServices(configs), 0, s);
    }
    if Allocated(net, s1, opts, entropy).Ok? {
      AllocatedFresh(net, s1, opts, entropy);
    }
  }

  lemma {:induction false} TakenFresh(entries: seq<Entry>, services: map<int, Imported>, k: nat, s: State)
    requires k <= |entries| && forall p :: p in s.proxies ==> p.enabled && p.status == Pending
    ensures var s' := TakeFrom(entries, services, k, s);
            && s'.nextOffset == s.nextOffset && forall p :: p in s'.proxies ==> p.enabled && p.status == Pending
    decreases |entries| - k
  {
    if k < |entries| {
      var e := entries[k];
      TakenFresh(entries, services, k + 1, if Usable(e, services) then With(s, e, services) else s);
    }
  }

  // ---- what is taken over ----

  // A proxy as its line of the list and the service on its port describe it.
  ghost predicate TakenFrom(e: Entry, services: map<int, Imported>, p: Proxy) {
    && e.port in services
    && p == Proxy(e.host, e.port, services[e.port].ipv6, e.username, e.password, true, Pending, "", 0)
  }

  // The entries at these places, in their order, have become the proxies from place n on.
  ghost predicate TakenAt(entries: seq<Entry>, services: map<int, Imported>, at: seq<int>, ps: seq<Proxy>, n: nat) {
    && |ps| == n + |at|
    && forall j :: 0 <= j < |at| ==> 0 <= at[j] < |entries| && TakenFrom(entries[at[j]], services, ps[n + j])
  }

  lemma NoneTaken(entries: seq<Entry>, services: map<int, Imported>, ps: seq<Proxy>)
    ensures TakenAt(entries, services, [], ps, |ps|)
  {
  }

  lemma TakenAtCons(entries: seq<Entry>, services: map<int, Imported>, k: nat, rest: seq<int>, ps: seq<Proxy>, n: nat)
    requires k < |entries| && n < |ps| && TakenFrom(entries[k], services, ps[n])
    requires TakenAt(entries, services, rest, ps, n + 1)
    ensures TakenAt(entries, services, [k] + rest, ps, n)
  {
    hide TakenFrom;
    var at := [k] + rest;
    forall j | 0 < j < |at|
      ensures TakenFrom(entries[at[j]], services, ps[n + j])
    {
      assert at[j] == rest[j - 1] && ps[n + j] == ps[n + 1 + (j - 1)];
    }
  }

  lemma {:induction false} TakesExactly(entries: seq<Entry>, services: map<int, Imported>, k: nat, s: State)
    returns (at: seq<int>)
    requires k <= |entries|
    ensures forall i :: i in at <==> k <= i < |entries| && entries[i].port in services && services[entries[i].port].ipv6 != ""
    ensures forall i, j :: 0 <= i < j < |at| ==> at[i] < at[j]
    ensures var s' := TakeFrom(entries, services, k, s);
            && s' == s.(proxies := s'.proxies, nextPort := s'.nextPort)
            && s.proxies <= s'.proxies && TakenAt(entries, services, at, s'.proxies, |s.proxies|)
    decreases |entries| - k
  {
    hide TakenAt;
    at := [];
    if k == |entries| {
      NoneTaken(entries, services, s.proxies);
    } else {
      var e := entries[k];
      if Usable(e, services) {
        var s1 := With(s, e, services);
        var rest := TakesExactly(entries, services, k + 1, s1);
        at := [k] + rest;
        assert forall j :: 0 <= j < |rest| ==> rest[j] in rest;
        TakenAtCons(entries, services, k, rest, TakeFrom(entries, services, k, s).proxies, |s.proxies|);
      } else {
        at := TakesExactly(entries, services, k + 1, s);
      }
    }
  }

  // An import of a list that can be read appends, in the order of the list and field by field, exactly the proxies whose
  // port the first configuration with any service knows with an address; of the rest only the port cursor changes.
  lemma ImportsFieldByField(net: Codec, s: State, text: string, configs: seq<Option<string>>) returns (at: seq<int>)
    requires TrimSpace(text) != "" && Imports(net, s, Contents(text), configs).Ok?
    ensures ParseList(net, text).Ok?
    ensures var entries, services := ParseList(net, text).value, FirstServices(configs);
            var s' := Imports(net, s, Contents(text), configs).value;
            && (forall i :: i in at <==> 0 <= i < |entries| && entries[i].port in services && services[entries[i].port].ipv6 != "")
            && (forall i, j :: 0 <= i < j < |at| ==> at[i] < at[j])
            && s' == s.(proxies := s'.proxies, nextPort := s'.nextPort)
            && s.proxies <= s'.proxies && TakenAt(entries, services, at, s'.proxies, |s.proxies|)
  {
    at := TakesExactly(ParseList(net, text).value, FirstServices(configs), 0, s);
  }

  // ---- what the old files must be like ----

  // What the old list says, as far as it can be read.
  function OldEntries(net: Codec, list: FileRead): seq<Entry> {
    match list
    case Contents(text) =>
      if TrimSpace(text) == "" then []
      else (match ParseList(net, text) case Ok(entries) => entries case Err(_) => [])
    case _ => []
  }

  function UsableEntries(entries: seq<Entry>, services: map<int, Imported>): (r: seq<Entry>)
    ensures forall i :: 0 <= i < |r| ==> Usable(r[i], services)
  {
    if entries == [] then []
    else (if Usable(entries[0], services) then [entries[0]] else []) + UsableEntries(entries[1..], services)
  }

  // The entries of the old list that the old configurations know have distinct ports.
  ghost predicate OldPortsDistinct(net: Codec, list: FileRead, configs: seq<Option<string>>) {
    var es := UsableEntries(OldEntries(net, list), FirstServices(configs));
    forall i, j :: 0 <= i < j < |es| ==> es[i].port != es[j].port
  }

  // The configurations give those ports distinct address texts.
  ghost predicate OldTextsDistinct(net: Codec, list: FileRead, configs: seq<Option<string>>) {
    var services := FirstServices(configs);
    var es := UsableEntries(OldEntries(net, list), services);
    forall i, j :: 0 <= i < j < |es| ==> services[es[i].port].ipv6 != services[es[j].port].ipv6
  }

  // And texts in canonical form.
  ghost predicate OldTextsCanonical(net: Codec, list: FileRead, configs: seq<Option<string>>) {
    var services := FirstServices(configs);
    var es := UsableEntries(OldEntries(net, list), services);
    forall i :: 0 <= i < |es| ==> net.Canonical(services[es[i].port].ipv6)
  }

  ghost predicate CleanFiles(net: Codec, list: FileRead, configs: seq<Option<string>>) {
    OldPortsDistinct(net, list, configs) && OldTextsDistinct(net, list, configs) && OldTextsCanonical(net, list, configs)
  }

  function TakenAll(es: seq<Entry>, services: map<int, Imported>): (r: seq<Proxy>)
    requires forall i :: 0 <= i < |es| ==> Usable(es[i], services)
    ensures |r| == |es| && forall i :: 0 <= i < |es| ==> r[i] == Taken(es[i], services)
  {
    if es == [] then [] else [Taken(es[0], services)] + TakenAll(es[1..], services)
  }

  lemma UsableStep(entries: seq<Entry>, services: map<int, Imported>, k: nat)
    requires k < |entries|
    ensures var rest := UsableEntries(entries[k + 1..], services);
            UsableEntries(entries[k..], services) == if Usable(entries[k], services) then [entries[k]] + rest else rest
  {
    assert entries[k..][0] == entries[k] && entries[k..][1..] == entries[k + 1..];
  }

  lemma UsableEnd(entries: seq<Entry>, services: map<int, Imported>, before: seq<Proxy>)
    ensures before + TakenAll(UsableEntries(entries[|entries|..], services), services) == before
  {
  }

  lemma {:induction false} TakesUsable(entries: seq<Entry>, services: map<int, Imported>, k: nat, s: State)
    requires k <= |entries|
    ensures TakeFrom(entries, services, k, s).proxies
         == s.proxies + TakenAll(UsableEntries(entries[k..], services), services)
    decreases |entries| - k
  {
    hide UsableEntries, TakenAll, Usable, Taken;
    if k < |entries| {
      var e := entries[k];
      UsableStep(entries, services, k);
      if Usable(e, services) {
        TakesUsable(entries, services, k + 1, With(s, e, services));
        TakenCons(s.proxies, e, UsableEntries(entries[k + 1..], services), services);
      } else {
        TakesUsable(entries, services, k + 1, s);
      }
    } else {
      UsableEnd(entries, services, s.proxies);
    }
  }

  lemma TakenCons(before: seq<Proxy>, e: Entry, rest: seq<Entry>, services: map<int, Imported>)
    requires Usable(e, services) && forall i :: 0 <= i < |rest| ==> Usable(rest[i], services)
    ensures before + [Taken(e, services)] + TakenAll(rest, services) == before + TakenAll([e] + rest, services)
  {
    assert ([e] + rest)[1..] == rest;
    assert before + ([Taken(e, services)] + TakenAll(rest, services)) == before + [Taken(e, services)] + TakenAll(rest, services);
  }

  lemma ImportsUsable(net: Codec, s: State, list: FileRead, configs: seq<Option<string>>)
    requires s.proxies == [] && Imports(net, s, list, configs).Ok?
    ensures var services := FirstServices(configs);
            Imports(net, s, list, configs).value.proxies == TakenAll(UsableEntries(OldEntries(net, list), services), services)
  {
    var entries, services := OldEntries(net, list), FirstServices(configs);
    TakesUsable(entries, services, 0, s);
    assert entries[0..] == entries;
    assert [] + TakenAll(UsableEntries(entries, services), services) == TakenAll(UsableEntries(entries, services), services);
  }

  lemma CleanPorts(es: seq<Entry>, services: map<int, Imported>)
    requires forall i :: 0 <= i < |es| ==> Usable(es[i], services)
    ensures UniquePorts(TakenAll(es, services)) <==> forall i, j :: 0 <= i < j < |es| ==> es[i].port != es[j].port
  {
  }

  lemma CleanTexts(es: seq<Entry>, services: map<int, Imported>)
    requires forall i :: 0 <= i < |es| ==> Usable(es[i], services)
    ensures DistinctTexts(TakenAll(es, services)) <==>
              forall i, j :: 0 <= i < j < |es| ==> services[es[i].port].ipv6 != services[es[j].port].ipv6
  {
  }

  lemma CleanCanonical(net: Codec, es: seq<Entry>, services: map<int, Imported>)
    requires forall i :: 0 <= i < |es| ==> Usable(es[i], services)
    ensures CanonicalSet(net, TakenAll(es, services)) <==>
              forall i :: 0 <= i < |es| ==> Usable(es[i], services) && net.Canonical(services[es[i].port].ipv6)
  {
    var ps := TakenAll(es, services);
    forall i | 0 <= i < |es|
      ensures ps[i] in ps
    {
    }
  }

  // The import rejects neither repeated ports nor repeated or non-canonical addresses. Of what History and Lifetime build
  // on, fitting statuses and a cursor above every port always hold of the imported state, and each of the other parts
  // holds exactly when the old files have it.
  lemma BootstrapKept(net: Codec, s: State, list: FileRead, configs: seq<Option<string>>)
    requires s.proxies == [] && Imports(net, s, list, configs).Ok?
    ensures var s1 := Imports(net, s, list, configs).value;
            && s1.nextPort >= s.nextPort && s1.nextOffset == s.nextOffset
            && H.BelowCursor(s1) && H.StatusesFit(s1.proxies)
            && (UniquePorts(s1.proxies) <==> OldPortsDistinct(net, list, configs))
            && (DistinctTexts(s1.proxies) <==> OldTextsDistinct(net, list, configs))
            && (CanonicalSet(net, s1.proxies) <==> OldTextsCanonical(net, list, configs))
            && (H.Kept(net, s1) <==> CleanFiles(net, list, configs))
  {
    hide FirstServices, UsableEntries, OldEntries, TakenAll;
    var s1 := Imports(net, s, list, configs).value;
    ImportedFits(net, s, list, configs);
    ImportsUsable(net, s, list, configs);
    var es, services := UsableEntries(OldEntries(net, list), FirstServices(configs)), FirstServices(configs);
    CleanPorts(es, services);
    CleanTexts(es, services);
    CleanCanonical(net, es, services);
  }

  lemma ImportedFits(net: Codec, s: State, list: FileRead, configs: seq<Option<string>>)
    requires s.proxies == [] && Imports(net, s, list, configs).Ok?
    ensures var s1 := Imports(net, s, list, configs).value;
            && s1.nextPort >= s.nextPort && s1.nextOffset == s.nextOffset
            && forall p :: p in s1.proxies ==> p.port < s1.nextPort && StatusFits(p)
  {
    var s1 := Imports(net, s, list, configs).value;
    if s1 != s {
      CursorAbove(ParseList(net, list.text).value, FirstServices(configs), 0, s);
      TakenFresh(ParseList(net, list.text).value, FirstServices(configs), 0, s);
    }
  }

  // ---- the migration round trip ----

  // An enabled proxy as the import rebuilds it: the list does not carry statuses or times.
  function Rebuilt(p: Proxy): Proxy {
    Proxy(p.host, p.port, p.ipv6, p.username, p.password, true, Pending, "", 0)
  }

  function RebuiltAll(ps: seq<Proxy>): (r: seq<Proxy>)
    ensures |r| == |ps| && forall i :: 0 <= i < |ps| ==> r[i] == Rebuilt(ps[i])
  {
    if ps == [] then [] else [Rebuilt(ps[0])] + RebuiltAll(ps[1..])
  }

  // One past the highest port, or the cursor as it was.
  function Above(port: int, ps: seq<Proxy>): int
    decreases |ps|
  {
    if ps == [] then port else Above(if ps[0].port >= port then ps[0].port + 1 else port, ps[1..])
  }

  ghost predicate ServesEnabled(ps: seq<Proxy>, services: map<int, Imported>) {
    forall p :: p in ps ==> Usable(EntryOf(p), services) == p.enabled && (p.enabled ==> services[p.port].ipv6 == p.ipv6)
  }

  // The state after these proxies have been rebuilt on top of it.
  function Extended(s: State, ps: seq<Proxy>): State {
    s.(proxies := s.proxies + RebuiltAll(ps), nextPort := Above(s.nextPort, ps))
  }

  lemma ExtendedOne(s: State, p: Proxy, rest: seq<Proxy>, services: map<int, Imported>)
    requires Usable(EntryOf(p), services) && services[p.port].ipv6 == p.ipv6
    ensures Extended(With(s, EntryOf(p), services), rest) == Extended(s, [p] + rest)
  {
    assert ([p] + rest)[1..] == rest;
    assert s.proxies + ([Rebuilt(p)] + RebuiltAll(rest)) == s.proxies + [Rebuilt(p)] + RebuiltAll(rest);
  }

  lemma ExtendedNone(s: State)
    ensures Extended(s, []) == s
  {
  }

  lemma {:induction false} TakesEnabled(ps: seq<Proxy>, services: map<int, Imported>, k: nat, s: State)
    requires k <= |ps| && ServesEnabled(ps, services)
    ensures TakeFrom(EntriesOf(ps), services, k, s) == Extended(s, Enabled(ps[k..]))
    decreases |ps| - k
  {
    hide Extended, With, Usable, Enabled;
    if k < |ps| {
      var p, e := ps[k], EntriesOf(ps)[k];
      assert p in ps && e == EntryOf(p);
      EnabledSuffix(ps, k);
      if p.enabled {
        TakesEnabled(ps, services, k + 1, With(s, e, services));
        ExtendedOne(s, p, Enabled(ps[k + 1..]), services);
      } else {
        TakesEnabled(ps, services, k + 1, s);
      }
    } else {
      assert Enabled(ps[k..]) == [] by { NoneEnabled(ps, k); }
      ExtendedNone(s);
    }
  }

  lemma EnabledSuffix(ps: seq<Proxy>, k: nat)
    requires k < |ps|
    ensures Enabled(ps[k..]) == if ps[k].enabled then [ps[k]] + Enabled(ps[k + 1..]) else Enabled(ps[k + 1..])
  {
    assert ps[k..][1..] == ps[k + 1..];
  }

  lemma NoneEnabled(ps: seq<Proxy>, k: nat)
    requires k == |ps|
    ensures Enabled(ps[k..]) == []
  {
  }

  lemma SomeEnabled(ps: seq<Proxy>)
    requires Enabled(ps) != []
    ensures ps != []
  {
  }

  lemma LineStart(net: Codec, p: Proxy)
    requires net.Lawful() && net.IsV4(p.host)
    ensures ListLine(p) != [] && !IsSpace(ListLine(p)[0])
  {
    AddressPlain(net, p.host);
    assert p.host[0] in p.host;
    assert ListLine(p)[0] == p.host[0];
  }

  lemma ListIsNotBlank(net: Codec, ps: seq<Proxy>)
    requires net.Lawful() && AllListable(net, ps) && ps != []
    ensures TrimSpace(FormatList(ps, false)) != ""
  {
    hide ListLine, IsSpace;
    var p, text := SortByPort(ps)[0], FormatList(ps, false);
    assert Listable(net, p);
    LineStart(net, p);
    var lines := ListLines(SortByPort(ps), false);
    assert lines[0] == ListLine(p);
    assert text == lines[0] + ("\n" + Unlines(lines[1..]));
    TrimRightHead(text);
  }

  lemma RenderedServices(net: Codec, ps: seq<Proxy>, keepalive: bool)
    requires net.Lawful() && PrintableSet(net, ps) && UniquePorts(ps) && Enabled(ps) != []
    ensures Render(net, ps, keepalive).Ok?
    ensures var m := Parse3ProxyServices(Render(net, ps, keepalive).value); |m| > 0 && ServesEnabled(ps, m)
  {
    ConfigRoundTrip(net, ps, keepalive);
    var en, m := Enabled(ps), Parse3ProxyServices(Render(net, ps, keepalive).value);
    assert en[0].port in m;
    forall p | p in ps
      ensures Usable(EntryOf(p), m) == p.enabled && (p.enabled ==> m[p.port].ipv6 == p.ipv6)
    {
      if p.port in m {
        var q :| q in en && q.port == p.port;
        var i :| 0 <= i < |ps| && ps[i] == p;
        var j :| 0 <= j < |ps| && ps[j] == q;
        assert i == j;
      }
      if p.enabled {
        assert p in en;
        assert Printable(net, p);
      }
    }
  }

  // Where the configurations before this one cannot be read or hold no service, this one is used.
  lemma {:induction false} FirstFound(before: seq<Option<string>>, config: string, after: seq<Option<string>>)
    requires |Parse3ProxyServices(config)| > 0
    requires forall c :: c in before && c.Some? ==> |Parse3ProxyServices(c.value)| == 0
    ensures FirstServices(before + [Some(config)] + after) == Parse3ProxyServices(config)
  {
    var all := before + [Some(config)] + after;
    if before != [] {
      assert before[0] in before;
      assert all[1..] == before[1..] + [Some(config)] + after;
      FirstFound(before[1..], config, after);
    }
  }

  lemma TakesAll(ps: seq<Proxy>, sorted: seq<Proxy>, services: map<int, Imported>, s: State)
    requires ServesEnabled(ps, services) && (forall p :: p in sorted <==> p in ps) && s.proxies == []
    ensures TakeFrom(EntriesOf(sorted), services, 0, s)
         == s.(proxies := RebuiltAll(Enabled(sorted)), nextPort := Above(s.nextPort, Enabled(sorted)))
  {
    TakesEnabled(sorted, services, 0, s);
    assert sorted[0..] == sorted;
    assert [] + RebuiltAll(Enabled(sorted)) == RebuiltAll(Enabled(sorted));
  }

  // Migration: from the full list and the rendered configuration of a proxy set with distinct ports and something
  // enabled, an import into a state without proxies rebuilds exactly the enabled proxies, in port order, with
  // their host, port, address, user name and password, and puts the port cursor just above the highest.
  lemma MigrationRoundTrip(net: Codec, ps: seq<Proxy>, keepalive: bool, s: State, before: seq<Option<string>>,
      after: seq<Option<string>>)
    requires net.Lawful() && PrintableSet(net, ps) && AllListable(net, ps) && UniquePorts(ps) && Enabled(ps) != []
    requires s.proxies == []
    requires forall c :: c in before && c.Some? ==> |Parse3ProxyServices(c.value)| == 0
    ensures Render(net, ps, keepalive).Ok?
    ensures var en := Enabled(SortByPort(ps));
            var configs := before + [Some(Render(net, ps, keepalive).value)] + after;
            Imports(net, s, Contents(FormatList(ps, false)), configs)
              == Ok(s.(proxies := RebuiltAll(en), nextPort := Above(s.nextPort, en)))
  {
    hide Render, Parse3ProxyServices, FormatList, ParseList, FirstServices, Printable, TrimSpace, TakeFrom, RebuiltAll,
         Above, EntriesOf, Listable, AllListable, PrintableSet, ServesEnabled, Enabled, SortByPort, UniquePorts;
    RenderedServices(net, ps, keepalive);
    var config := Render(net, ps, keepalive).value;
    SomeEnabled(ps);
    ListIsNotBlank(net, ps);
    ListRoundTrip(net, ps);
    FirstFound(before, config, after);
    TakesAll(ps, SortByPort(ps), Parse3ProxyServices(config), s);
  }

  // The cursor in numbers: not below where it was, above every port, and no higher than that needs.
  lemma {:induction false} AboveExact(port: int, ps: seq<Proxy>)
    ensures var a := Above(port, ps);
            && a >= port && (forall p :: p in ps ==> p.port < a)
            && (a == port || exists p :: p in ps && a == p.port + 1)
    decreases |ps|
  {
    if ps != [] {
      AboveExact(if ps[0].port >= port then ps[0].port + 1 else port, ps[1..]);
      assert ps == [ps[0]] + ps[1..];
    }
  }
}
