// AddOffset of internal/proxy/allocate.go: byte-wise carry addition of a 64-bit offset to a 128-bit address.
module AddOffset {
  import opened Model
  import opened Netip

  newtype uint8 = x: int | 0 <= x < 0x100
  newtype uint64 = x: int | 0 <= x < 0x1_0000_0000_0000_0000

  // Big-endian value, as netip.AddrFrom16 reads it.
  function Value(b: seq<uint8>): nat {
    if b == [] then 0 else 256 * Value(b[..|b| - 1]) + b[|b| - 1] as nat
  }

  function Pow256(n: nat): (p: nat)
    ensures p > 0
  {
    if n == 0 then 1 else 256 * Pow256(n - 1)
  }

  // Addr.As16: the n low bytes of v, big-endian.
  function Bytes(v: nat, n: nat): (b: seq<uint8>)
    ensures |b| == n
  {
    if n == 0 then [] else Bytes(v / 256, n - 1) + [(v % 256) as uint8]
  }

  lemma {:induction false} ValueBytes(v: nat, n: nat)
    requires v < Pow256(n)
    ensures Value(Bytes(v, n)) == v
  {
    if n > 0 {
      ValueBytes(v / 256, n - 1);
      var b := Bytes(v, n);
      assert b[..n - 1] == Bytes(v / 256, n - 1);
    }
  }

  lemma {:induction false} ValueBound(b: seq<uint8>)
    ensures Value(b) < Pow256(|b|)
  {
    if b != [] {
      ValueBound(b[..|b| - 1]);
    }
  }

  // Changing one byte changes the value by the difference times its place.
  lemma {:induction false} ValueUpdate(b: seq<uint8>, i: nat, x: uint8)
    requires i < |b|
    ensures Value(b[i := x]) == Value(b) + (x as int - b[i] as int) * Pow256(|b| - 1 - i)
  {
    var c := b[i := x];
    var n := |b| - 1;
    if i == n {
      assert c[..n] == b[..n];
    } else {
      assert c[..n] == b[..n][i := x];
      ValueUpdate(b[..n], i, x);
      var d, p := x as int - b[i] as int, Pow256(n - 1 - i);
      assert Value(c) == 256 * (Value(b[..n]) + d * p) + b[n] as nat;
      assert 256 * (d * p) == d * (256 * p);
    }
  }

  lemma SixteenBytes()
    ensures Pow256(16) == ADDRESSES
  {
    assert Pow256(2) == 65536;
    assert Pow256(4) == 65536 * 65536;
    assert Pow256(6) == 65536 * 65536 * 65536;
    assert Pow256(8) == 65536 * 65536 * 65536 * 65536;
    assert Pow256(10) == 65536 * Pow256(8);
    assert Pow256(12) == 65536 * Pow256(10);
    assert Pow256(14) == 65536 * Pow256(12);
    assert Pow256(16) == 65536 * Pow256(14);
  }

  // What the bytes and the carry, k places up, stand for together.
  function Total(b: seq<uint8>, carry: nat, k: nat): nat {
    Value(b) + carry * Pow256(k)
  }

  lemma CarryStep(value: int, old8: int, new8: int, carry: int, next: int, place: int)
    requires new8 + 256 * next == old8 + carry
    ensures value + (new8 - old8) * place + next * (256 * place) == value + carry * place
  {
    assert (new8 - old8 + 256 * next) * place == carry * place;
    assert (new8 - old8) * place + (256 * next) * place == carry * place;
    assert (256 * next) * place == next * (256 * place);
  }

  // One step of the loop: the low byte is added in place, the rest carried one place up.
  lemma TotalKept(b: seq<uint8>, i: nat, x: uint8, carry: nat, next: nat)
    requires i < |b| && x as int + 256 * next == b[i] as int + carry
    ensures Total(b[i := x], next, |b| - i) == Total(b, carry, |b| - 1 - i)
  {
    ValueUpdate(b, i, x);
    CarryStep(Value(b), b[i] as int, x as int, carry, next, Pow256(|b| - 1 - i));
  }

  lemma NoCarry(b: seq<uint8>, k: nat)
    ensures Total(b, 0, k) == Value(b)
  {
  }

  function Plus(base: nat, offset: nat): Option<nat> {
    if base + offset < ADDRESSES then Some(base + offset) else None
  }

  // Exact addition: an error exactly when the sum needs a 129th bit. The uint64 carry never overflows.
  method AddOffset(base: Addr, offset: uint64) returns (r: Option<Addr>)
    requires base.V6? ==> base.v < ADDRESSES
    ensures base.V4? ==> r == None
    ensures base.V6? && base.v + offset as nat < ADDRESSES ==> r == Some(V6(base.v + offset as nat, ""))
    ensures base.V6? && base.v + offset as nat >= ADDRESSES ==> r == None
  {
    if base.V4? {
      return None;
    }
    SixteenBytes();
    ValueBytes(base.v, 16);
    ghost var init := Bytes(base.v, 16);
    var b := new uint8[16](k requires 0 <= k < 16 => Bytes(base.v, 16)[k]);
    assert b[..] == init;
    var carry: uint64 := offset;
    var i := 15;
    while i >= 0 && carry > 0
      invariant -1 <= i <= 15 && b.Length == 16
      invariant Total(b[..], carry as nat, 15 - i) == base.v + offset as nat
    {
      ghost var before := b[..];
      var sum: uint64 := (b[i] as int) as uint64 + carry % 256;
      var next: uint64 := carry / 256 + sum / 256;
      b[i] := ((sum % 256) as int) as uint8;
      assert b[..] == before[i := b[i]];
      TotalKept(before, i, b[i], carry as nat, next as nat);
      carry := next;
      i := i - 1;
    }
    ValueBound(b[..]);
    if carry != 0 {
      CarryOut(Value(b[..]), carry as nat, Pow256(16));
      return None;
    }
    NoCarry(b[..], 15 - i);
    r := Some(V6(Value(b[..]), ""));
  }

  lemma CarryOut(value: nat, carry: nat, place: nat)
    requires carry > 0
    ensures value + carry * place >= place
  {
  }

  // ---- what it means for a prefix ----

  lemma {:induction false} Pow2Splits(a: nat, b: nat)
    ensures Pow2(a + b) == Pow2(a) * Pow2(b)
  {
    if a > 0 {
      Pow2Splits(a - 1, b);
      Regroup(Pow2(a - 1), Pow2(b));
    }
  }

  lemma Regroup(x: nat, y: nat)
    ensures 2 * (x * y) == (2 * x) * y
  {
  }

  lemma Pow2Eight(n: nat)
    ensures Pow2(n + 8) == 256 * Pow2(n)
  {
    Pow2Splits(8, n);
    assert Pow2(8) == 256;
  }

  lemma Pow2Of128()
    ensures Pow2(64) == U64 && Pow2(128) == ADDRESSES
  {
    Pow2Eight(0); Pow2Eight(8); Pow2Eight(16); Pow2Eight(24);
    Pow2Eight(32); Pow2Eight(40); Pow2Eight(48); Pow2Eight(56);
    Pow2Eight(64); Pow2Eight(72); Pow2Eight(80); Pow2Eight(88);
    Pow2Eight(96); Pow2Eight(104); Pow2Eight(112); Pow2Eight(120);
  }

  lemma MultipleBelow(a: nat, m: nat, total: nat, k: nat)
    requires m > 0 && total == k * m && a % m == 0 && a < total
    ensures a + m <= total
  {
    var q := a / m;
    assert a == q * m;
    if q >= k {
      MulMono(k, q, m);
      assert false;
    }
    MulMono(q + 1, k, m);
  }

  lemma MulMono(a: nat, b: nat, m: nat)
    requires a <= b
    ensures a * m <= b * m
  {
  }

  lemma SameBlock(a: nat, m: nat, o: nat)
    requires m > 0 && a % m == 0
    ensures (a + o) / m == a / m <==> o < m
  {
    var q := a / m;
    assert a == q * m;
    if o < m {
      DivUnique(a + o, m, q);
    } else {
      DivBound(a + o, m);
      MulMono(1, 1, m);
      assert a + o >= (q + 1) * m;
      assert (a + o) / m == q ==> a + o < (q + 1) * m;
    }
  }

  lemma DivBound(n: nat, m: nat)
    requires m > 0
    ensures n / m * m <= n < (n / m + 1) * m
  {
  }

  lemma DivUnique(n: nat, m: nat, q: nat)
    requires m > 0 && q * m <= n < (q + 1) * m
    ensures n / m == q
  {
    var d := n / m;
    DivBound(n, m);
    if d < q {
      MulMono(d + 1, q, m);
      assert false;
    }
    if d > q {
      MulMono(q + 1, d, m);
      assert false;
    }
  }

  // In a /n prefix, adding to the masked base stays an address of the prefix exactly for offsets below 2^(128-n).
  lemma PrefixHolds(p: Prefix, offset: nat)
    requires WellSized(p) && p.addr.V6?
    ensures var base := Masked(p);
            offset < Pow2(128 - p.bits)
            <==> (Plus(base, offset).Some? && Contains(p, V6(base + offset, "")))
  {
    var m := Pow2(128 - p.bits);
    var v := p.addr.v;
    var base := Masked(p);
    Aligned(v, m);
    assert base + m <= ADDRESSES by {
      Pow2Of128();
      Pow2Splits(p.bits, 128 - p.bits);
      MultipleBelow(base, m, ADDRESSES, Pow2(p.bits));
    }
    SameBlock(base, m, offset);
    assert base / m == v / m by { SameBlock(base, m, v - base); assert base + (v - base) == v; }
  }

  lemma Aligned(v: nat, m: nat)
    requires m > 0
    ensures AlignDown(v, m) % m == 0
  {
    var q := v / m;
    assert AlignDown(v, m) == q * m;
    MultipleOf(q, m);
  }

  lemma {:induction false} MultipleOf(q: nat, m: nat)
    requires m > 0
    ensures (q * m) % m == 0
  {
    DivUnique(q * m, m, q);
  }

  // A prefix holds exactly the addresses of its family without a zone in one aligned block.
  lemma HoldsExactly(p: Prefix, a: Addr)
    requires WellSized(p)
    ensures var size := Pow2((if p.addr.V4? then 32 else 128) - p.bits);
            && Masked(p) % size == 0 && Masked(p) <= p.addr.v < Masked(p) + size
            && (Contains(p, a) <==>
                  p.addr.V4? == a.V4? && (a.V6? ==> a.zone == "") && Masked(p) <= a.v < Masked(p) + size)
  {
    var m := Pow2(Width(p.addr) - p.bits);
    Aligned(p.addr.v, m);
    SameQuotient(p.addr.v, a.v, m);
  }

  lemma SameQuotient(v: nat, x: nat, m: nat)
    requires m > 0
    ensures x / m == v / m <==> AlignDown(v, m) <= x < AlignDown(v, m) + m
  {
    var q := v / m;
    assert AlignDown(v, m) == q * m && (q + 1) * m == q * m + m;
    DivBound(x, m);
    if q * m <= x < q * m + m {
      DivUnique(x, m, q);
    }
  }
}
