// The part of Go's net/netip that the program relies on. Address text itself is the library's business, so
// every theorem is about an arbitrary codec that obeys the library's laws.
module Netip {
  import opened Model
  import opened Text

  const ADDRESSES: nat := 0x1_0000_0000_0000_0000_0000_0000_0000_0000

  datatype Addr = V4(v: nat) | V6(v: nat, zone: string)

  datatype Prefix = Prefix(addr: Addr, bits: nat)

  function Pow2(n: nat): (p: nat)
    ensures p > 0
  {
    if n == 0 then 1 else 2 * Pow2(n - 1)
  }

  // parseAddr is netip.ParseAddr, parsePrefix is netip.ParsePrefix and format is Addr.String on zone-free IPv6.
  datatype Codec = Codec(parseAddr: string -> Option<Addr>, parsePrefix: string -> Option<Prefix>, format: nat -> string) {

    ghost predicate Lawful() {
      && (forall v: nat | v < ADDRESSES :: parseAddr(format(v)) == Some(V6(v, "")))
      && (forall t | parseAddr(t).Some? :: WellWritten(parseAddr(t).value, t))
      && (forall t | parsePrefix(t).Some? :: WellSized(parsePrefix(t).value))
    }

    predicate IsV4(t: string) {
      parseAddr(t).Some? && parseAddr(t).value.V4?
    }

    predicate IsV6(t: string) {
      parseAddr(t).Some? && parseAddr(t).value.V6?
    }

    predicate ZoneFreeV6(t: string) {
      IsV6(t) && parseAddr(t).value.zone == ""
    }

    // The text under which the kernel reports an address back. A text that names no address it could bind, such as
    // one with a zone, stands for itself.
    function Canon(t: string): string {
      if ZoneFreeV6(t) then format(parseAddr(t).value.v) else t
    }

    // RFC 5952 section 4: every address has one text, and this is it.
    predicate Canonical(t: string) {
      ZoneFreeV6(t) && Canon(t) == t
    }

    lemma FormatCanonical(v: nat)
      requires Lawful() && v < ADDRESSES
      ensures Canonical(format(v)) && parseAddr(format(v)) == Some(V6(v, ""))
    {
    }

    lemma FormatInjective(v: nat, w: nat)
      requires Lawful() && v < ADDRESSES && w < ADDRESSES && format(v) == format(w)
      ensures v == w
    {
      FormatCanonical(v);
      FormatCanonical(w);
    }
  }

  predicate WellWritten(a: Addr, t: string) {
    match a
    case V4(v) => v < 0x1_0000_0000 && Word(t) && ':' !in t && |t| <= 15
    case V6(v, zone) => v < ADDRESSES && (zone == "" ==> Word(t) && |t| <= 45)
  }

  predicate WellSized(p: Prefix) {
    match p.addr
    case V4(v) => p.bits <= 32 && v < 0x1_0000_0000
    case V6(v, zone) => p.bits <= 128 && v < ADDRESSES && zone == ""
  }

  function Width(a: Addr): nat {
    if a.V4? then 32 else 128
  }

  function AlignDown(v: nat, m: nat): (r: nat)
    requires m > 0
    ensures r <= v < r + m
  {
    v - v % m
  }

  // Prefix.Masked().Addr()
  function Masked(p: Prefix): nat
    requires WellSized(p)
  {
    AlignDown(p.addr.v, Pow2(Width(p.addr) - p.bits))
  }

  predicate Contains(p: Prefix, a: Addr)
    requires WellSized(p)
  {
    && p.addr.V4? == a.V4?
    && (a.V6? ==> a.zone == "")
    && a.v / Pow2(Width(a) - p.bits) == p.addr.v / Pow2(Width(a) - p.bits)
  }

  // The laws can be met: writing an IPv6 address as a colon and its decimal value does, with one IPv4 text beside it.
  const TOY_V4 := "1.1.1.1"

  function ToyParse(t: string): Option<Addr> {
    if t == TOY_V4 then Some(V4(0x0101_0101))
    else if |t| > 1 && t[0] == ':' && AllDigits(t[1..]) && DigitsValue(t[1..]) < ADDRESSES && |t| <= 45
    then Some(V6(DigitsValue(t[1..]), "")) else None
  }

  lemma {:induction false} DigitsShort(n: nat, k: nat)
    requires k > 0 && n < Pow10(k)
    ensures |Digits(n)| <= k
  {
    if n >= 10 {
      DigitsShort(n / 10, k - 1);
    }
  }

  function Pow10(k: nat): nat {
    if k == 0 then 1 else 10 * Pow10(k - 1)
  }

  lemma Pow10Steps(k: nat)
    ensures Pow10(k + 4) == 10000 * Pow10(k)
  {
    assert Pow10(k + 2) == 100 * Pow10(k);
    assert Pow10(k + 4) == 100 * Pow10(k + 2);
  }

  lemma ToyReadsBack(v: nat)
    requires v < ADDRESSES
    ensures ToyParse(":" + Digits(v)) == Some(V6(v, ""))
  {
    var t := ":" + Digits(v);
    assert t[1..] == Digits(v);
    assert v < Pow10(40) by {
      Pow10Steps(36); Pow10Steps(32); Pow10Steps(28); Pow10Steps(24); Pow10Steps(20);
      Pow10Steps(16); Pow10Steps(12); Pow10Steps(8); Pow10Steps(4); Pow10Steps(0);
    }
    DigitsShort(v, 40);
  }

  lemma ToyWellWritten(t: string)
    requires ToyParse(t).Some?
    ensures WellWritten(ToyParse(t).value, t)
  {
    forall c | c in t
      ensures !IsSpace(c)
    {
      assert t == [t[0]] + t[1..];
    }
  }

  // In this codec ":07" is another text for ":7". It has two prefixes, the whole space and its first eight addresses.
  // It shows that the laws can be met, and serves the concrete inputs.
  const WHOLE := Prefix(V6(0, ""), 0)
  const LOW := Prefix(V6(0, ""), 125)

  function ToyPrefix(t: string): Option<Prefix> {
    if t == "all" then Some(WHOLE) else if t == "low" then Some(LOW) else None
  }

  function Toy(): Codec {
    Codec(ToyParse, ToyPrefix, (v: nat) => ":" + Digits(v))
  }

  lemma ToyIsLawful()
    ensures Toy().Lawful()
  {
    forall v: nat | v < ADDRESSES
      ensures Toy().parseAddr(Toy().format(v)) == Some(V6(v, ""))
    {
      ToyReadsBack(v);
    }
    forall t | Toy().parseAddr(t).Some?
      ensures WellWritten(Toy().parseAddr(t).value, t)
    {
      ToyWellWritten(t);
    }
  }

  // No prefix holds an address with a zone, or one of the other family.
  lemma HoldsNoStrangers(p: Prefix, a: Addr)
    requires WellSized(p) && ((a.V6? && a.zone != "") || p.addr.V4? != a.V4?)
    ensures !Contains(p, a)
  {
  }
}
