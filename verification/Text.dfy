// The string functions of Go's standard library that the printers and parsers call.
// A text is a sequence of characters; for the ASCII texts this program prints, one character is one byte.
module Text {

  // ---- decimal numbers (strconv.Itoa, strconv.Atoi) ----

  const INT_LIMIT: int := 0x8000_0000_0000_0000

  predicate IsDigit(c: char) { '0' <= c <= '9' }

  function Digit(n: nat): (c: char)
    requires n < 10
    ensures IsDigit(c) && DigitValue(c) == n
  {
    '0' + n as char
  }

  function DigitValue(c: char): nat
    requires IsDigit(c)
  {
    c as int - '0' as int
  }

  function Digits(n: nat): (s: string)
    ensures |s| > 0 && forall c :: c in s ==> IsDigit(c)
    ensures DigitsValue(s) == n
  {
    if n < 10 then [Digit(n)] else Digits(n / 10) + [Digit(n % 10)]
  }

  function DigitsValue(s: string): nat
    requires forall c :: c in s ==> IsDigit(c)
  {
    if s == [] then 0 else 10 * DigitsValue(s[..|s| - 1]) + DigitValue(s[|s| - 1])
  }

  function Itoa(n: int): string {
    if n < 0 then "-" + Digits(-n) else Digits(n)
  }

  predicate AllDigits(s: string) {
    |s| > 0 && forall c :: c in s ==> IsDigit(c)
  }

  // The number, and whether the text was accepted. A refused text gives 0, an out-of-range one the nearest int.
  function Atoi(s: string): (int, bool) {
    var negative := |s| > 0 && s[0] == '-';
    var digits := if |s| > 0 && (s[0] == '-' || s[0] == '+') then s[1..] else s;
    if !AllDigits(digits) then (0, false)
    else
      var n: int := DigitsValue(digits);
      if negative then (if n <= INT_LIMIT then (-n, true) else (-INT_LIMIT, false))
      else if n < INT_LIMIT then (n, true) else (INT_LIMIT - 1, false)
  }

  lemma {:induction false} AtoiItoa(n: int)
    requires -INT_LIMIT <= n < INT_LIMIT
    ensures Atoi(Itoa(n)) == (n, true)
  {
    if n < 0 {
      assert Itoa(n)[1..] == Digits(-n);
    } else {
      assert Digits(n)[0] in Digits(n);
    }
  }

  // ---- cutting a text at a character (strings.Split, bufio.ScanLines) ----

  function Find(s: string, c: char): (i: nat)
    ensures i <= |s| && c !in s[..i] && (i < |s| ==> s[i] == c)
  {
    if s == [] || s[0] == c then 0 else
      assert forall i: nat | i <= |s[1..]| :: s[..i + 1] == [s[0]] + s[1..][..i];
      1 + Find(s[1..], c)
  }

  lemma {:induction false} FindAfter(a: string, c: char, rest: string)
    requires c !in a
    ensures Find(a + [c] + rest, c) == |a|
    ensures Find(a, c) == |a|
  {
    if a != [] {
      assert a[0] in a;
      assert (a + [c] + rest)[1..] == a[1..] + [c] + rest;
      FindAfter(a[1..], c, rest);
    }
  }

  function Split(s: string, c: char): (parts: seq<string>)
    ensures |parts| > 0
    decreases |s|
  {
    var i := Find(s, c);
    if i == |s| then [s] else [s[..i]] + Split(s[i + 1..], c)
  }

  lemma {:induction false} SplitCut(a: string, c: char, rest: string)
    requires c !in a
    ensures Split(a + [c] + rest, c) == [a] + Split(rest, c)
    ensures Split(a, c) == [a]
  {
    FindAfter(a, c, rest);
    var s := a + [c] + rest;
    assert s[..|a|] == a;
    assert s[|a| + 1..] == rest;
  }

  const SCAN_LIMIT := 65536

  function DropCR(line: string): string {
    if |line| > 0 && line[|line| - 1] == '\r' then line[..|line| - 1] else line
  }

  datatype Scan = Scan(lines: seq<string>, tooLong: bool)

  // bufio.Scanner with its default split function and buffer: it stops at a line that does not fit.
  function ScanLines(text: string): Scan
    decreases |text|
  {
    if text == [] then Scan([], false)
    else
      var i := Find(text, '\n');
      if i >= SCAN_LIMIT then Scan([], true)
      else if i == |text| then Scan([DropCR(text)], false)
      else
        var rest := ScanLines(text[i + 1..]);
        Scan([DropCR(text[..i])] + rest.lines, rest.tooLong)
  }

  function Unlines(lines: seq<string>): string {
    if lines == [] then "" else lines[0] + "\n" + Unlines(lines[1..])
  }

  predicate PlainLine(line: string) {
    '\n' !in line && '\r' !in line && |line| < 65536
  }

  lemma {:induction false} ScanUnlines(lines: seq<string>)
    requires forall l :: l in lines ==> PlainLine(l)
    ensures ScanLines(Unlines(lines)) == Scan(lines, false)
  {
    if lines != [] {
      var rest := Unlines(lines[1..]);
      var text := lines[0] + ['\n'] + rest;
      assert PlainLine(lines[0]);
      FindAfter(lines[0], '\n', rest);
      assert Unlines(lines) == text;
      assert text[..|lines[0]|] == lines[0];
      assert text[|lines[0]| + 1..] == rest;
      ScanUnlines(lines[1..]);
    }
  }

  lemma {:induction false} UnlinesAppend(a: seq<string>, b: seq<string>)
    ensures Unlines(a + b) == Unlines(a) + Unlines(b)
  {
    if a == [] {
      assert a + b == b;
    } else {
      assert (a + b)[1..] == a[1..] + b;
      UnlinesAppend(a[1..], b);
    }
  }

  // The scanner line by line: a line break and a carriage return before it are dropped, and the last line needs none.
  lemma ScansByLine(line: string, rest: string)
    requires '\n' !in line && |line| < 65536
    ensures var clean := if line != "" && line[|line| - 1] == '\r' then line[..|line| - 1] else line;
            && ScanLines(line + "\n" + rest) == Scan([clean] + ScanLines(rest).lines, ScanLines(rest).tooLong)
            && ScanLines(line) == Scan(if line == "" then [] else [clean], false)
  {
    var text := line + ['\n'] + rest;
    FindAfter(line, '\n', rest);
    assert text[..|line|] == line && text[|line| + 1..] == rest;
  }

  // Somewhere 65536 characters follow each other without a line break.
  ghost predicate LongStretch(text: string) {
    exists i: nat :: LongFrom(text, i)
  }

  ghost predicate LongFrom(text: string, i: nat) {
    i + 65536 <= |text| && '\n' !in text[i..i + 65536]
  }

  // The scanner gives up exactly on such texts.
  lemma {:induction false} TooLongExactly(text: string)
    ensures ScanLines(text).tooLong <==> LongStretch(text)
    decreases |text|
  {
    if text != [] {
      var n := Find(text, '\n');
      StretchAtStart(text, n);
      if n < 65536 && n < |text| {
        TooLongExactly(text[n + 1..]);
        StretchAfter(text, n);
      }
    }
  }

  // Before the first line break there is such a stretch exactly when the break is that far away.
  lemma StretchAtStart(text: string, n: nat)
    requires n <= |text| && '\n' !in text[..n] && (n < |text| ==> text[n] == '\n')
    ensures n >= 65536 ==> LongStretch(text)
    ensures n == |text| && n < 65536 ==> !LongStretch(text)
  {
    if n >= 65536 {
      assert text[0..65536] <= text[..n];
      assert LongFrom(text, 0);
    }
  }

  // Past a line break that is near, the stretches are those of the rest.
  lemma StretchAfter(text: string, n: nat)
    requires n < |text| && n < 65536 && text[n] == '\n'
    ensures LongStretch(text) <==> LongStretch(text[n + 1..])
  {
    var rest := text[n + 1..];
    forall i: nat | i <= n && i + 65536 <= |text|
      ensures !LongFrom(text, i)
    {
      assert text[i..i + 65536][n - i] == '\n';
    }
    forall i: nat | LongFrom(text, i)
      ensures LongStretch(rest)
    {
      assert i > n;
      assert rest[i - n - 1..i - n - 1 + 65536] == text[i..i + 65536];
      assert LongFrom(rest, i - n - 1);
    }
    forall i: nat | LongFrom(rest, i)
      ensures LongStretch(text)
    {
      assert rest[i..i + 65536] == text[n + 1 + i..n + 1 + i + 65536];
      assert LongFrom(text, n + 1 + i);
    }
  }

  // ---- white space (strings.TrimSpace, strings.Fields) ----

  predicate IsSpace(c: char) {
    c in {'\t', '\n', '\U{0B}', '\U{0C}', '\r', ' ', '\U{85}', '\U{A0}', '\U{1680}', '\U{2028}', '\U{2029}',
          '\U{202F}', '\U{205F}', '\U{3000}'} || '\U{2000}' <= c <= '\U{200A}'
  }

  predicate NoSpace(s: string) {
    forall c :: c in s ==> !IsSpace(c)
  }

  function TrimLeft(s: string): string {
    if s != [] && IsSpace(s[0]) then TrimLeft(s[1..]) else s
  }

  function TrimRight(s: string): string {
    if s != [] && IsSpace(s[|s| - 1]) then TrimRight(s[..|s| - 1]) else s
  }

  function TrimSpace(s: string): string {
    TrimRight(TrimLeft(s))
  }

  lemma TrimNoSpace(s: string)
    requires NoSpace(s)
    ensures TrimSpace(s) == s
  {
    if s != [] {
      assert s[0] in s && s[|s| - 1] in s;
    }
  }

  predicate AllSpace(s: string) {
    forall c :: c in s ==> IsSpace(c)
  }

  // White space around a text that neither starts nor ends with any is all that trimming takes away.
  lemma TrimExactly(a: string, s: string, b: string)
    requires AllSpace(a) && AllSpace(b) && (s != "" ==> !IsSpace(s[0]) && !IsSpace(s[|s| - 1]))
    ensures TrimSpace(a + s + b) == s
  {
    if s == "" {
      assert a + s + b == a + b;
      TrimLeftExactly(a + b, "");
      assert (a + b) + "" == a + b;
    } else {
      assert a + s + b == a + (s + b);
      TrimLeftExactly(a, s + b);
      TrimRightExactly(s, b);
    }
  }

  lemma {:induction false} TrimLeftExactly(a: string, s: string)
    requires AllSpace(a) && (s != "" ==> !IsSpace(s[0]))
    ensures TrimLeft(a + s) == s
  {
    if a == "" {
      assert a + s == s;
    } else {
      assert (a + s)[1..] == a[1..] + s;
      TrimLeftExactly(a[1..], s);
    }
  }

  lemma {:induction false} TrimRightExactly(s: string, b: string)
    requires AllSpace(b) && (s != "" ==> !IsSpace(s[|s| - 1]))
    ensures TrimRight(s + b) == s
  {
    if b == "" {
      assert s + b == s;
    } else {
      var n := |s + b| - 1;
      assert (s + b)[n] == b[|b| - 1] && (s + b)[..n] == s + b[..|b| - 1];
      TrimRightExactly(s, b[..|b| - 1]);
    }
  }

  function WordEnd(s: string): (i: nat)
    ensures i <= |s| && NoSpace(s[..i]) && (i < |s| ==> IsSpace(s[i]))
    ensures s != [] && !IsSpace(s[0]) ==> i > 0
  {
    if s == [] || IsSpace(s[0]) then 0 else
      assert forall i: nat | i <= |s[1..]| :: s[..i + 1] == [s[0]] + s[1..][..i];
      1 + WordEnd(s[1..])
  }

  function Fields(s: string): seq<string>
    decreases |s|
  {
    if s == [] then []
    else if IsSpace(s[0]) then Fields(s[1..])
    else
      var i := WordEnd(s);
      [s[..i]] + Fields(s[i..])
  }

  function Join(words: seq<string>): string
  {
    if words == [] then "" else if |words| == 1 then words[0] else words[0] + " " + Join(words[1..])
  }

  predicate Word(w: string) {
    |w| > 0 && NoSpace(w)
  }

  lemma {:induction false} WordEndExact(w: string, rest: string)
    requires NoSpace(w)
    requires rest == [] || IsSpace(rest[0])
    ensures WordEnd(w + rest) == |w|
  {
    if w == [] {
      assert w + rest == rest;
    } else {
      assert w[0] in w;
      assert (w + rest)[1..] == w[1..] + rest;
      WordEndExact(w[1..], rest);
    }
  }

  lemma {:induction false} FieldsJoin(words: seq<string>)
    requires forall w :: w in words ==> Word(w)
    ensures Fields(Join(words)) == words
  {
    if words == [] {
    } else {
      var w := words[0];
      var tail := Join(words[1..]);
      var rest := if |words| == 1 then "" else " " + tail;
      assert Word(w) && w[0] in w;
      assert Join(words) == w + rest;
      WordEndExact(w, rest);
      assert (w + rest)[..|w|] == w;
      assert (w + rest)[|w|..] == rest;
      FieldsJoin(words[1..]);
      if |words| > 1 {
        assert rest[1..] == tail;
      }
    }
  }

  // A field is a longest stretch without white space, wherever it stands and whatever white space is before it.
  lemma {:induction false} FieldsExactly(a: string, w: string, rest: string)
    requires AllSpace(a) && Word(w) && (rest == "" || IsSpace(rest[0]))
    ensures Fields(a + w + rest) == [w] + Fields(rest) && Fields(a) == []
    decreases |a|
  {
    if a == "" {
      assert a + w + rest == w + rest && w[0] in w;
      WordEndExact(w, rest);
      assert (w + rest)[..|w|] == w && (w + rest)[|w|..] == rest;
    } else {
      assert (a + w + rest)[1..] == a[1..] + w + rest;
      FieldsExactly(a[1..], w, rest);
    }
  }

  // Join never starts or ends with white space, so trimming it changes nothing.
  lemma {:induction false} TrimJoin(words: seq<string>)
    requires forall w :: w in words ==> Word(w)
    ensures TrimSpace(Join(words)) == Join(words)
  {
    if words != [] {
      JoinEnds(words);
    }
  }

  lemma {:induction false} JoinEnds(words: seq<string>)
    requires words != [] && forall w :: w in words ==> Word(w)
    ensures var s := Join(words); |s| > 0 && !IsSpace(s[0]) && !IsSpace(s[|s| - 1])
  {
    assert Word(words[0]) && words[0][0] in words[0];
    if |words| > 1 {
      JoinEnds(words[1..]);
    } else {
      assert words[0][|words[0]| - 1] in words[0];
    }
  }

  function HasPrefix(s: string, p: string): bool {
    |p| <= |s| && s[..|p|] == p
  }
}
