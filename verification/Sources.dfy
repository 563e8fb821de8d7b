/** The accounting key of a remote address (src/admission.rs, SourceKey). */
module Sources {

  const V4_END: nat := 0x1_0000_0000
  const V6_END: nat := 0x1_0000_0000_0000_0000_0000_0000_0000_0000

  type ipv4 = n: nat | n < V4_END
  type ipv6 = n: nat | n < V6_END

  datatype IpAddr = V4(v4: ipv4) | V6(v6: ipv6) {
    predicate IsLoopback() {
      match this
      case V4(a) => a / 0x100_0000 == 127
      case V6(a) => a == 1
    }
  }

  /** 127.0.0.0/8 and ::1. */
  lemma LoopbackAddresses(ip: IpAddr)
    ensures ip.IsLoopback() <==> (ip.V4? && 0x7f00_0000 <= ip.v4 <= 0x7fff_ffff) || ip == V6(1)
  {
  }

  datatype SourceKey = KeyV4(v4: ipv4) | KeyV6(prefix: ipv6, bits: nat)

  /** ::ffff:a.b.c.d, the IPv6 spelling of an IPv4 address. */
  predicate IsMapped(a: ipv6) { a / V4_END == 0xffff }

  function Pow2(k: nat): (p: nat)
    ensures p >= 1
  {
    if k == 0 then 1 else 2 * Pow2(k - 1)
  }

  lemma {:induction false} PowersAdd(j: nat, k: nat)
    ensures Pow2(1) == 2 && Pow2(j + k) == Pow2(j) * Pow2(k)
  {
    if j > 0 {
      PowersAdd(j - 1, k);
    }
  }

  lemma HalfAddress()
    ensures Pow2(64) == 0x1_0000_0000_0000_0000
  {
    hide Pow2;
    PowersAdd(1, 1);
    PowersAdd(2, 2);
    PowersAdd(4, 4);
    PowersAdd(8, 8);
    PowersAdd(16, 16);
    PowersAdd(32, 32);
  }

  function Clamp(bits: nat): nat { if bits < 1 then 1 else if bits > 128 then 128 else bits }

  /** What is left of an address under the mask that keeps its top `bits` bits. */
  function Masked(a: ipv6, bits: nat): ipv6
    requires bits <= 128
  {
    Remainder(a, Pow2(128 - bits));
    a - a % Pow2(128 - bits)
  }

  lemma Remainder(a: nat, p: nat)
    requires p > 0
    ensures 0 <= a % p <= a
  {
  }

  function Of(ip: IpAddr, v6Bits: nat): SourceKey {
    match ip
    case V4(a) => KeyV4(a)
    case V6(a) => if IsMapped(a) then KeyV4(a % V4_END) else KeyV6(Masked(a, Clamp(v6Bits)), Clamp(v6Bits))
  }

  function AsIp(key: SourceKey): IpAddr {
    match key
    case KeyV4(a) => V4(a)
    case KeyV6(p, _) => V6(p)
  }

  lemma MaskKeepsPrefix(a: ipv6, b: ipv6, bits: nat)
    requires bits <= 128
    ensures Masked(a, bits) == Masked(b, bits) <==> a / Pow2(128 - bits) == b / Pow2(128 - bits)
  {
    hide Pow2;
    Floors(a, b, Pow2(128 - bits));
  }

  lemma Floors(a: nat, b: nat, p: nat)
    requires p > 0
    ensures a - a % p == b - b % p <==> a / p == b / p
  {
    assert a - a % p == a / p * p;
    assert b - b % p == b / p * p;
    Multiples(a / p, b / p, p);
  }

  lemma Multiples(x: int, y: int, p: nat)
    requires p > 0
    ensures x * p == y * p <==> x == y
  {
    assert (x - y) * p == x * p - y * p;
  }

  /** The IPv4 address an address is or, as ::ffff:a.b.c.d, carries. */
  predicate Carries(ip: IpAddr, a: ipv4) { ip == V4(a) || ip == V6(0xffff_0000_0000 + a) }

  lemma CarriesOne(ip: IpAddr, v6Bits: nat)
    ensures (exists a :: Carries(ip, a)) <==> ip.V4? || IsMapped(ip.v6)
    ensures forall a | Carries(ip, a) :: Of(ip, v6Bits) == KeyV4(a)
  {
    if ip.V4? {
      assert Carries(ip, ip.v4);
    } else if IsMapped(ip.v6) {
      assert Carries(ip, ip.v6 % V4_END);
    }
  }

  /** Two remote addresses share a budget exactly when they carry the same IPv4 address, mapped or
      not, or carry none and agree in their first `v6Bits` bits, at least one and at most 128. */
  lemma SharedBudget(x: IpAddr, y: IpAddr, v6Bits: nat)
    ensures (exists a :: Carries(x, a)) || (exists a :: Carries(y, a)) ==>
      (Of(x, v6Bits) == Of(y, v6Bits) <==> exists a :: Carries(x, a) && Carries(y, a))
    ensures !(exists a :: Carries(x, a)) && !(exists a :: Carries(y, a)) ==>
      x.V6? && y.V6? && var host := if v6Bits == 0 then 127 else if v6Bits <= 128 then 128 - v6Bits else 0;
      (Of(x, v6Bits) == Of(y, v6Bits) <==> x.v6 / Pow2(host) == y.v6 / Pow2(host))
  {
    CarriesOne(x, v6Bits);
    CarriesOne(y, v6Bits);
    if x.V6? && y.V6? {
      MaskKeepsPrefix(x.v6, y.v6, Clamp(v6Bits));
    }
  }

  /** Keys survive the trip through an address, so a map keyed by address counts per source. */
  lemma AsIpIsFaithful(x: IpAddr, y: IpAddr, v6Bits: nat)
    ensures AsIp(Of(x, v6Bits)) == AsIp(Of(y, v6Bits)) <==> Of(x, v6Bits) == Of(y, v6Bits)
  {
  }
}
