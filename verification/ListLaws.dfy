// The text list, printed and read back, and what feeding it to a list action does.
module ListLaws {
  import opened Model
  import opened Text
  import opened Netip
  import opened Order
  import opened Config
  import opened ConfigLaws
  import opened Lists

  // What the list can show of a proxy and read back.
  ghost predicate Listable(net: Codec, p: Proxy) {
    net.IsV4(p.host) && 1 <= p.port <= 65535 && ValidCredential(p.username) && ValidCredential(p.password)
  }

  ghost predicate AllListable(net: Codec, ps: seq<Proxy>) {
    forall p :: p in ps ==> Listable(net, p)
  }

  function EntryOf(p: Proxy): Entry {
    Entry(p.host, p.port, p.username, p.password)
  }

  function EntriesOf(ps: seq<Proxy>): (r: seq<Entry>)
    ensures |r| == |ps|
    ensures forall i :: 0 <= i < |ps| ==> r[i] == EntryOf(ps[i])
  {
    if ps == [] then [] else [EntryOf(ps[0])] + EntriesOf(ps[1..])
  }

  // ---- one line ----

  ghost predicate Cell(s: string) {
    Word(s) && ':' !in s && PlainLine(s)
  }

  lemma WordsConcat(a: string, b: string)
    requires Word(a) && Word(b)
    ensures Word(a + b)
  {
  }

  lemma ColonWord()
    ensures Word(":") && PlainLine(":")
  {
  }

  lemma CellLine(a: string, b: string, c: string, d: string)
    requires Cell(a) && Cell(b) && Cell(c) && Cell(d) && |a| + |b| + |c| + |d| + 3 < SCAN_LIMIT
    ensures var line := a + ":" + b + ":" + c + ":" + d; Word(line) && PlainLine(line)
  {
    ColonWord();
    WordsConcat(a, ":");
    PlainConcat(a, ":");
    WordsConcat(a + ":", b);
    PlainConcat(a + ":", b);
    WordsConcat(a + ":" + b, ":");
    PlainConcat(a + ":" + b, ":");
    WordsConcat(a + ":" + b + ":", c);
    PlainConcat(a + ":" + b + ":", c);
    WordsConcat(a + ":" + b + ":" + c, ":");
    PlainConcat(a + ":" + b + ":" + c, ":");
    WordsConcat(a + ":" + b + ":" + c + ":", d);
    PlainConcat(a + ":" + b + ":" + c + ":", d);
  }

  lemma ColonAssoc(x: string, c: string, d: string)
    ensures x + ":" + c + ":" + d == x + ":" + (c + ":" + d)
  {
  }

  lemma CutCell(a: string, rest: string)
    requires ':' !in a
    ensures Split(a + ":" + rest, ':') == [a] + Split(rest, ':') && Split(a, ':') == [a]
  {
    SplitCut(a, ':', rest);
  }

  lemma CutCells(a: string, b: string, c: string, d: string)
    requires ':' !in a && ':' !in b && ':' !in c && ':' !in d
    ensures Split(a + ":" + b + ":" + c + ":" + d, ':') == [a, b, c, d]
  {
    hide Split;
    var r3 := c + ":" + d;
    ColonAssoc(a + ":" + b, c, d);
    ColonAssoc(a, b, r3);
    CutCell(d, "");
    CutCell(c, d);
    CutCell(b, r3);
    CutCell(a, b + ":" + r3);
    assert [a] + ([b] + ([c] + [d])) == [a, b, c, d];
  }

  lemma ItoaCell(n: nat)
    requires n <= 65535
    ensures Cell(Itoa(n)) && |Itoa(n)| <= 5 && Atoi(Itoa(n)) == (n, true)
  {
    ItoaWord(n);
    DigitsLength(n);
    WordIsPlain(Itoa(n));
    AtoiItoa(n);
  }

  lemma LineReadsBack(net: Codec, p: Proxy, number: nat)
    requires net.Lawful() && Listable(net, p)
    ensures PlainLine(ListLine(p)) && ParseLine(net, ListLine(p), number) == Ok(Some(EntryOf(p)))
  {
    AddressPlain(net, p.host);
    ItoaCell(p.port);
    CredentialPlain(p.username);
    CredentialPlain(p.password);
    CellLine(p.host, Itoa(p.port), p.username, p.password);
    CutCells(p.host, Itoa(p.port), p.username, p.password);
    TrimNoSpace(ListLine(p));
  }

  // ---- the whole list ----

  function LinesOf(ps: seq<Proxy>): (r: seq<string>)
    ensures |r| == |ps|
    ensures forall i :: 0 <= i < |ps| ==> r[i] == ListLine(ps[i])
  {
    if ps == [] then [] else [ListLine(ps[0])] + LinesOf(ps[1..])
  }

  lemma {:induction false} LinesOfAll(ps: seq<Proxy>)
    ensures ListLines(ps, false) == LinesOf(ps)
  {
    if ps != [] {
      LinesOfAll(ps[1..]);
    }
  }

  lemma TakeNext<T>(s: seq<T>, i: nat)
    requires i < |s|
    ensures s[..i] + [s[i]] == s[..i + 1]
  {
  }

  lemma {:induction false} LinesReadBack(net: Codec, ps: seq<Proxy>, lines: seq<string>, i: nat)
    requires net.Lawful() && AllListable(net, ps) && i <= |ps| == |lines|
    requires forall k :: 0 <= k < |ps| ==> lines[k] == ListLine(ps[k])
    ensures ParseLines(net, lines, i, EntriesOf(ps)[..i]) == Ok(EntriesOf(ps))
    decreases |ps| - i
  {
    hide ListLine, ParseLine;
    var all := EntriesOf(ps);
    if i < |ps| {
      assert Listable(net, ps[i]) by { assert ps[i] in ps; }
      LineReadsBack(net, ps[i], i + 1);
      TakeNext(all, i);
      LinesReadBack(net, ps, lines, i + 1);
    } else {
      assert all[..i] == all;
    }
  }

  lemma ListScans(net: Codec, ps: seq<Proxy>)
    requires net.Lawful() && AllListable(net, ps)
    ensures ScanLines(Unlines(ListLines(ps, false))) == Scan(ListLines(ps, false), false)
  {
    LinesOfAll(ps);
    var lines := ListLines(ps, false);
    forall l | l in lines
      ensures PlainLine(l)
    {
      var i :| 0 <= i < |lines| && lines[i] == l;
      assert ps[i] in ps;
      LineReadsBack(net, ps[i], 0);
    }
    ScanUnlines(lines);
  }

  // Reading back a printed list gives what it shows of every proxy, in port order. Only the empty list is refused.
  lemma ListRoundTrip(net: Codec, ps: seq<Proxy>)
    requires net.Lawful() && AllListable(net, ps)
    ensures ParseList(net, FormatList(ps, false)) == if ps == [] then Err(EmptyList) else Ok(EntriesOf(SortByPort(ps)))
  {
    var ordered := SortByPort(ps);
    ListScans(net, ordered);
    LinesOfAll(ordered);
    LinesReadBack(net, ordered, ListLines(ordered, false), 0);
  }

  // ---- the list fed back to an action ----

  // Every proxy of this list is named by its own entry, and by no other proxy's.
  lemma EntryFindsItsProxy(ps: seq<Proxy>, p: Proxy)
    requires UniquePorts(ps) && p in ps
    ensures var i := FirstMatch(ps, EntryOf(p), 0); 0 <= i < |ps| && ps[i] == p
  {
    var j :| 0 <= j < |ps| && ps[j] == p;
    assert Names(EntryOf(p), ps[j]);
  }

  lemma {:induction false} AllFound(ps: seq<Proxy>, qs: seq<Proxy>, k: nat)
    requires UniquePorts(ps) && (forall q :: q in qs ==> q in ps) && k <= |qs|
    ensures FoundCount(ps, EntriesOf(qs), k) == |qs| - k
    decreases |qs| - k
  {
    hide FirstMatch, EntriesOf, Names;
    if k < |qs| {
      assert qs[k] in qs;
      EntryFindsItsProxy(ps, qs[k]);
      AllFound(ps, qs, k + 1);
    }
  }

  function AllIndexes(n: nat): (r: set<int>)
    ensures |r| == n && forall i :: i in r <==> 0 <= i < n
  {
    if n == 0 then {} else AllIndexes(n - 1) + {n - 1}
  }

  lemma OwnEntry(ps: seq<Proxy>, qs: seq<Proxy>, p: Proxy)
    requires p in ps && forall q :: q in ps ==> q in qs
    ensures EntryOf(p) in EntriesOf(qs) && Names(EntryOf(p), p)
  {
    var j :| 0 <= j < |qs| && qs[j] == p;
    assert EntriesOf(qs)[j] == EntryOf(p);
  }

  lemma MatchesAll(ps: seq<Proxy>, qs: seq<Proxy>)
    requires UniquePorts(ps) && forall p :: p in ps <==> p in qs
    ensures MatchAll(ps, EntriesOf(qs)) == Matches(AllIndexes(|ps|), [])
  {
    hide FirstMatch, FoundCount, MatchAll, EntriesOf, EntryOf, Names, AllIndexes;
    var entries := EntriesOf(qs);
    AllFound(ps, qs, 0);
    ReportAddsUp(ps, entries);
    var m := MatchAll(ps, entries);
    assert m.notFound == [];
    forall i | 0 <= i < |ps|
      ensures i in m.indexes
    {
      OwnEntry(ps, qs, ps[i]);
    }
    assert m.indexes == AllIndexes(|ps|);
  }

  // The program's own full list, pasted back, names every proxy exactly once: as many matches as lines, nothing
  // unmatched, and the action reaches all of them.
  lemma OwnListMatchesAll(net: Codec, ps: seq<Proxy>, action: string)
    requires net.Lawful() && AllListable(net, ps) && UniquePorts(ps) && ps != []
    ensures ParseList(net, FormatList(ps, false)).Ok?
    ensures Planned(ps, action, ParseList(net, FormatList(ps, false)).value)
         == (Some(Edited(ps, action, AllIndexes(|ps|))), ActionResult(|ps|, |ps|, [], action))
  {
    ListRoundTrip(net, ps);
    MatchesAll(ps, SortByPort(ps));
  }

  lemma {:induction false} KeepNone(ps: seq<Proxy>, i: nat)
    requires i <= |ps|
    ensures Keep(ps, AllIndexes(|ps|), i) == []
    decreases |ps| - i
  {
    if i < |ps| {
      KeepNone(ps, i + 1);
    }
  }

  // Deleting by the full list deletes everything; disabling by it disables everything and nothing else.
  lemma OwnListReachesAll(ps: seq<Proxy>)
    ensures Edited(ps, "delete", AllIndexes(|ps|)) == []
    ensures forall i :: 0 <= i < |ps| ==> 
              Edited(ps, "disable", AllIndexes(|ps|))[i] == ps[i].(enabled := false, status := Disabled, lastError := "")
  {
    KeepNone(ps, 0);
  }

  // ---- which texts are lists ----

  function Colons(parts: seq<string>): string {
    if parts == [] then "" else if |parts| == 1 then parts[0] else parts[0] + ":" + Colons(parts[1..])
  }

  lemma {:induction false} SplitParts(s: string)
    ensures Colons(Split(s, ':')) == s && forall part :: part in Split(s, ':') ==> ':' !in part
    decreases |s|
  {
    var i := Find(s, ':');
    if i < |s| {
      SplitParts(s[i + 1..]);
      assert s == s[..i] + ":" + s[i + 1..];
    } else {
      assert s[..i] == s;
    }
  }

  // A line that names a proxy: host, port, user name and password between colons, possibly with white space around, the
  // host an IPv4 address and the port a number from 1 to 65535.
  ghost predicate LineSays(net: Codec, raw: string, e: Entry) {
    exists port: string :: Cells(raw, e, port) && Atoi(port) == (e.port, true) && 1 <= e.port <= 65535 && net.IsV4(e.host)
  }

  ghost predicate Cells(raw: string, e: Entry, port: string) {
    && TrimSpace(raw) == e.host + ":" + port + ":" + e.username + ":" + e.password
    && ':' !in e.host && ':' !in port && ':' !in e.username && ':' !in e.password
  }

  lemma FourCells(raw: string, parts: seq<string>)
    requires Split(TrimSpace(raw), ':') == parts && |parts| == 4
    ensures forall port: int :: Cells(raw, Entry(parts[0], port, parts[2], parts[3]), parts[1])
  {
    SplitParts(TrimSpace(raw));
    var a, b, c, d := parts[0], parts[1], parts[2], parts[3];
    assert a in parts && b in parts && c in parts && d in parts;
    assert parts[1..] == [b, c, d] && parts[1..][1..] == [c, d] && parts[1..][1..][1..] == [d];
    assert Colons([d]) == d && Colons([c, d]) == c + ":" + d && Colons([b, c, d]) == b + ":" + (c + ":" + d);
    assert Colons(parts) == a + ":" + (b + ":" + (c + ":" + d));
    ColonAssoc(a + ":" + b, c, d);
    ColonAssoc(a, b, c + ":" + d);
  }

  lemma CellsSplit(raw: string, e: Entry, port: string)
    requires Cells(raw, e, port)
    ensures Split(TrimSpace(raw), ':') == [e.host, port, e.username, e.password]
    ensures TrimSpace(raw) != ""
  {
    CutCells(e.host, port, e.username, e.password);
    assert |TrimSpace(raw)| > 0;
  }

  // A line is skipped exactly when it is blank and taken exactly when it names a proxy.
  lemma LineExactly(net: Codec, raw: string, number: nat)
    ensures ParseLine(net, raw, number) == Ok(None) <==> TrimSpace(raw) == ""
    ensures forall e :: ParseLine(net, raw, number) == Ok(Some(e)) <==> LineSays(net, raw, e)
  {
    hide Split, TrimSpace;
    var parts := Split(TrimSpace(raw), ':');
    forall e | LineSays(net, raw, e)
      ensures ParseLine(net, raw, number) == Ok(Some(e))
    {
      var port: string :| Cells(raw, e, port) && Atoi(port) == (e.port, true);
      CellsSplit(raw, e, port);
    }
    if |parts| == 4 {
      FourCells(raw, parts);
      forall e | ParseLine(net, raw, number) == Ok(Some(e))
        ensures LineSays(net, raw, e)
      {
        assert e == Entry(parts[0], Atoi(parts[1]).0, parts[2], parts[3]);
        assert Cells(raw, e, parts[1]);
      }
    }
  }

  // What is wrong with a line that is neither: not four parts, a bad port, or a bad host, in this order and with the
  // number of the line.
  lemma LineFlaws(net: Codec, raw: string, number: nat)
    requires TrimSpace(raw) != ""
    ensures var parts := Split(TrimSpace(raw), ':');
            && (ParseLine(net, raw, number) == Err(BadShape(number)) <==> |parts| != 4)
            && (ParseLine(net, raw, number) == Err(BadListPort(number)) <==>
                  |parts| == 4 && !(Atoi(parts[1]).1 && 1 <= Atoi(parts[1]).0 <= 65535))
            && (ParseLine(net, raw, number) == Err(BadListHost(number)) <==>
                  |parts| == 4 && Atoi(parts[1]).1 && 1 <= Atoi(parts[1]).0 <= 65535 && !net.IsV4(parts[0]))
  {
    hide Split, TrimSpace, Atoi;
  }

  // These lines, the blank ones left out, name these proxies in this order.
  ghost predicate LinesSay(net: Codec, lines: seq<string>, entries: seq<Entry>)
    decreases |lines|
  {
    if lines == [] then entries == []
    else if TrimSpace(lines[0]) == "" then LinesSay(net, lines[1..], entries)
    else entries != [] && LineSays(net, lines[0], entries[0]) && LinesSay(net, lines[1..], entries[1..])
  }

  lemma {:induction false} LinesExactly(net: Codec, lines: seq<string>, i: nat, taken: seq<Entry>, entries: seq<Entry>)
    requires i <= |lines|
    ensures ParseLines(net, lines, i, taken) == Ok(entries)
            <==> taken <= entries && LinesSay(net, lines[i..], entries[|taken|..])
    decreases |lines| - i
  {
    hide ParseLine, LineSays, TrimSpace;
    if i == |lines| {
      assert taken <= entries && entries[|taken|..] == [] <==> taken == entries;
    } else {
      LineExactly(net, lines[i], i + 1);
      assert lines[i..][0] == lines[i] && lines[i..][1..] == lines[i + 1..];
      match ParseLine(net, lines[i], i + 1)
      case Err(_) =>
      case Ok(None) => LinesExactly(net, lines, i + 1, taken, entries);
      case Ok(Some(e)) =>
        LinesExactly(net, lines, i + 1, taken + [e], entries);
        LineSaysOne(net, lines[i], i + 1, e);
        if taken + [e] <= entries {
          assert entries[|taken|] == e && entries[|taken|..][1..] == entries[|taken + [e]|..];
        }
        if taken <= entries && |entries| > |taken| && entries[|taken|] == e {
          assert taken + [e] <= entries;
        }
    }
  }

  lemma LineSaysOne(net: Codec, raw: string, number: nat, e: Entry)
    requires ParseLine(net, raw, number) == Ok(Some(e))
    ensures TrimSpace(raw) != "" && forall d :: LineSays(net, raw, d) <==> d == e
  {
    LineExactly(net, raw, number);
    forall d | LineSays(net, raw, d)
      ensures d == e
    {
      assert ParseLine(net, raw, number) == Ok(Some(d));
    }
  }

  // A text is read as a list of these proxies exactly when its lines, the blank ones left out, name them in this order,
  // there is at least one, and no line is too long to scan.
  lemma ListExactly(net: Codec, text: string, entries: seq<Entry>)
    ensures ParseList(net, text) == Ok(entries)
            <==> entries != [] && !ScanLines(text).tooLong && LinesSay(net, ScanLines(text).lines, entries)
  {
    hide ScanLines, ParseLines;
    var lines := ScanLines(text).lines;
    LinesExactly(net, lines, 0, [], entries);
    assert lines[0..] == lines && entries[0..] == entries;
  }

  lemma {:induction false} FlawFrom(net: Codec, lines: seq<string>, i: nat, taken: seq<Entry>) returns (k: nat)
    requires i <= |lines| && ParseLines(net, lines, i, taken).Err?
    ensures i <= k < |lines| && ParseLine(net, lines[k], k + 1) == Err(ParseLines(net, lines, i, taken).error)
    ensures forall j :: i <= j < k ==> ParseLine(net, lines[j], j + 1).Ok?
    decreases |lines| - i
  {
    hide ParseLine;
    k := i;
    match ParseLine(net, lines[i], i + 1)
    case Err(_) =>
    case Ok(None) => k := FlawFrom(net, lines, i + 1, taken);
    case Ok(Some(e)) => k := FlawFrom(net, lines, i + 1, taken + [e]);
  }

  // A text that is no list is refused for its first bad line, by number; failing that, for a line that is too long; and
  // otherwise because it names nothing.
  lemma ListFlaws(net: Codec, text: string) returns (k: nat)
    requires ParseList(net, text).Err?
    ensures var scan, flaw := ScanLines(text), ParseList(net, text).error;
            if k < |scan.lines|
            then ParseLine(net, scan.lines[k], k + 1) == Err(flaw)
                 && forall j :: 0 <= j < k ==> ParseLine(net, scan.lines[j], j + 1).Ok?
            else flaw == if scan.tooLong then LineTooLong else EmptyList
  {
    hide ScanLines, ParseLine;
    var lines := ScanLines(text).lines;
    k := |lines|;
    if ParseLines(net, lines, 0, []).Err? {
      k := FlawFrom(net, lines, 0, []);
    }
  }

  // ---- the live list ----

  lemma {:induction false} LiveLines(ps: seq<Proxy>) returns (qs: seq<Proxy>)
    ensures ListLines(ps, true) == LinesOf(qs)
    ensures forall q :: q in qs <==> q in ps && q.enabled && q.status == Live
    ensures multiset(qs) <= multiset(ps)
    ensures SortedByPort(ps) ==> SortedByPort(qs)
  {
    hide SortedByPort, ListLine;
    qs := [];
    if ps == [] {
      NothingSorted();
    } else {
      var rest := LiveLines(ps[1..]);
      SortedRest(ps);
      assert ps == [ps[0]] + ps[1..];
      if ps[0].enabled && ps[0].status == Live {
        qs := [ps[0]] + rest;
        assert qs[1..] == rest;
        SortedCons(ps, rest);
      } else {
        qs := rest;
      }
    }
  }

  lemma NothingSorted()
    ensures SortedByPort([])
  {
  }

  lemma SortedRest(ps: seq<Proxy>)
    requires ps != []
    ensures SortedByPort(ps) ==> SortedByPort(ps[1..])
  {
  }

  lemma SortedCons(ps: seq<Proxy>, rest: seq<Proxy>)
    requires ps != [] && forall q :: q in rest ==> q in ps[1..]
    requires SortedByPort(ps[1..]) ==> SortedByPort(rest)
    ensures SortedByPort(ps) ==> SortedByPort([ps[0]] + rest)
  {
    if SortedByPort(ps) {
      assert SortedByPort(ps[1..]);
      forall i | 0 <= i < |rest|
        ensures ps[0].port <= rest[i].port
      {
        assert rest[i] in ps[1..];
        var j :| 0 <= j < |ps[1..]| && ps[1..][j] == rest[i];
        assert ps[j + 1] == rest[i];
      }
    }
  }

  // The live list reads back as exactly the enabled proxies that are live, in port order.
  lemma LiveListRoundTrip(net: Codec, ps: seq<Proxy>) returns (qs: seq<Proxy>)
    requires net.Lawful() && AllListable(net, ps)
    ensures SortedByPort(qs) && forall q :: q in qs <==> q in ps && q.enabled && q.status == Live
    ensures multiset(qs) <= multiset(ps)
    ensures ParseList(net, FormatList(ps, true)) == if qs == [] then Err(EmptyList) else Ok(EntriesOf(qs))
  {
    qs := LiveLines(SortByPort(ps));
    assert AllListable(net, qs);
    LinesOfAll(qs);
    ListScans(net, qs);
    LinesReadBack(net, qs, LinesOf(qs), 0);
  }
}
