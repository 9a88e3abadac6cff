/** Client and answer addresses, and the lists of addresses and networks they are checked against. */
module Addresses {
  import opened Text

  /** An address as a number; an IPv4-mapped IPv6 address is its IPv4 address. */
  datatype Ip = V4(n: nat) | V6(n: nat)

  datatype Net = Net(base: Ip, prefix: nat)

  /** net.ParseIP and net.ParseCIDR. */
  datatype Parser = Parser(ip: string -> Option<Ip>, cidr: string -> Option<Net>)

  function Pow2(k: nat): (p: nat)
    ensures p > 0
  {
    if k == 0 then 1 else 2 * Pow2(k - 1)
  }

  function Width(ip: Ip): nat {
    if ip.V4? then 32 else 128
  }

  /** The number of addresses that share a network's prefix. */
  function Size(net: Net): (m: nat)
    ensures m > 0
  {
    Pow2(if net.prefix <= Width(net.base) then Width(net.base) - net.prefix else 0)
  }

  /** IPNet.Contains: the same family, and the same leading bits. */
  predicate Contains(net: Net, ip: Ip) {
    net.base.V4? == ip.V4? && ip.n / Size(net) == net.base.n / Size(net)
  }

  lemma {:induction false} Spaced(a: nat, b: nat, m: nat)
    ensures a < b ==> a * m + m <= b * m
  {
    if a < b {
      Spaced(a, b - 1, m);
      assert b * m == (b - 1) * m + m;
    }
  }

  lemma SameQuotient(x: nat, b: nat, m: nat)
    requires m > 0
    ensures x / m == b / m <==> b - b % m <= x < b - b % m + m
  {
    var q := b / m;
    assert b - b % m == q * m;
    Spaced(x / m, q, m);
    Spaced(q, x / m, m);
  }

  /** A network holds exactly one aligned interval of its family's addresses. */
  lemma ContainsIsInterval(net: Net, ip: Ip)
    ensures var m := Size(net);
      var first := net.base.n - net.base.n % m;
      Contains(net, ip) <==> net.base.V4? == ip.V4? && first <= ip.n < first + m
  {
    hide Size;
    SameQuotient(ip.n, net.base.n, Size(net));
  }

  /** One list entry holds ip: as a network, else as an address, else as the same text. */
  predicate ItemHolds(p: Parser, ip: string, raw: string) {
    var item := TrimSpace(raw);
    && item != ""
    && if p.cidr(item).Some? && p.ip(ip).Some? then Contains(p.cidr(item).value, p.ip(ip).value)
       else if p.ip(item).Some? && p.ip(ip).Some? then p.ip(item) == p.ip(ip)
       else item == ip
  }

  /** Blanks around an entry, and the way an address is spelled, do not matter; */
  lemma SpellingDoesNotMatter(p: Parser, ip: string, other: string, raw: string)
    requires p.ip(ip).Some? && p.ip(ip) == p.ip(other)
    requires p.cidr(TrimSpace(raw)).Some? || p.ip(TrimSpace(raw)).Some?
    ensures ItemHolds(p, ip, raw) == ItemHolds(p, other, raw)
    ensures p.cidr(TrimSpace(raw)).None? && TrimSpace(raw) != "" && p.ip(TrimSpace(raw)) == p.ip(ip) ==>
      ItemHolds(p, ip, raw)
  {
    hide Contains, TrimSpace;
  }

  /** an entry that is a network holds the addresses from its first to its last. */
  lemma NetworkHolds(p: Parser, ip: string, raw: string)
    requires TrimSpace(raw) != "" && p.ip(ip).Some? && p.cidr(TrimSpace(raw)).Some?
    ensures var net, n := p.cidr(TrimSpace(raw)).value, p.ip(ip).value.n;
      var first := net.base.n - net.base.n % Size(net);
      ItemHolds(p, ip, raw) <==> net.base.V4? == p.ip(ip).value.V4? && first <= n < first + Size(net)
  {
    hide Contains, TrimSpace, Size;
    ContainsIsInterval(p.cidr(TrimSpace(raw)).value, p.ip(ip).value);
  }

  /** Where the one or the other is no address, only the same text counts. */
  lemma TextHolds(p: Parser, ip: string, raw: string)
    requires p.ip(ip).None? || (p.cidr(TrimSpace(raw)).None? && p.ip(TrimSpace(raw)).None?)
    ensures ItemHolds(p, ip, raw) <==> ip != "" && ip == TrimSpace(raw)
  {
  }

  method IpInList(p: Parser, ip: string, list: seq<string>) returns (found: bool)
    ensures found <==> exists k :: 0 <= k < |list| && ItemHolds(p, ip, list[k])
  {
    hide Contains, TrimSpace;
    var parsed := p.ip(ip);
    for k := 0 to |list|
      invariant forall j :: 0 <= j < k ==> !ItemHolds(p, ip, list[j])
    {
      var item := TrimSpace(list[k]);
      if item == "" {
        continue;
      }
      if p.cidr(item).Some? && parsed.Some? {
        if Contains(p.cidr(item).value, parsed.value) {
          return true;
        }
        continue;
      }
      if p.ip(item).Some? && parsed.Some? {
        if p.ip(item) == parsed {
          return true;
        }
        continue;
      }
      if item == ip {
        return true;
      }
    }
    found := false;
  }

  /** RFC 1918 and RFC 4193 */
  predicate IsPrivate(ip: Ip) {
    || Contains(Net(V4(0x0A00_0000), 8), ip) || Contains(Net(V4(0xAC10_0000), 12), ip)
    || Contains(Net(V4(0xC0A8_0000), 16), ip) || Contains(Net(V6(0xFC00_0000_0000_0000_0000_0000_0000_0000), 7), ip)
  }

  predicate IsLoopback(ip: Ip) {
    Contains(Net(V4(0x7F00_0000), 8), ip) || ip == V6(1)
  }

  /** RFC 3927 and RFC 4291 */
  predicate IsLinkLocalUnicast(ip: Ip) {
    || Contains(Net(V4(0xA9FE_0000), 16), ip)
    || Contains(Net(V6(0xFE80_0000_0000_0000_0000_0000_0000_0000), 10), ip)
  }

  /** isLANIP */
  predicate IsLan(p: Parser, ip: string) {
    p.ip(ip).Some? && (IsPrivate(p.ip(ip).value) || IsLoopback(p.ip(ip).value) || IsLinkLocalUnicast(p.ip(ip).value))
  }

  lemma InNet(base: nat, prefix: nat, m: nat, n: nat)
    requires prefix <= 32 && Pow2(32 - prefix) == m
    ensures Contains(Net(V4(base), prefix), V4(n)) <==> base - base % m <= n < base - base % m + m
  {
    ContainsIsInterval(Net(V4(base), prefix), V4(n));
  }

  lemma Powers()
    ensures Pow2(16) == 0x1_0000 && Pow2(20) == 0x10_0000 && Pow2(24) == 0x100_0000
  {
    FourMore(0);
    FourMore(4);
    FourMore(8);
    FourMore(12);
    FourMore(16);
    FourMore(20);
  }

  lemma FourMore(k: nat)
    ensures Pow2(k + 4) == 16 * Pow2(k)
  {
    assert Pow2(k + 2) == 4 * Pow2(k);
    assert Pow2(k + 4) == 4 * Pow2(k + 2);
  }

  /** Of the IPv4 addresses these are the LAN ones. */
  lemma LanIntervals(p: Parser, ip: string, n: nat)
    requires p.ip(ip) == Some(V4(n))
    ensures IsLan(p, ip) <==>
      || 0x0A00_0000 <= n < 0x0B00_0000      // 10.0.0.0/8
      || 0xAC10_0000 <= n < 0xAC20_0000      // 172.16.0.0/12
      || 0xC0A8_0000 <= n < 0xC0A9_0000      // 192.168.0.0/16
      || 0x7F00_0000 <= n < 0x8000_0000      // 127.0.0.0/8
      || 0xA9FE_0000 <= n < 0xA9FF_0000      // 169.254.0.0/16
  {
    OtherFamily(n);
    hide Contains, Pow2;
    Powers();
    InNet(0x0A00_0000, 8, 0x100_0000, n);
    InNet(0xAC10_0000, 12, 0x10_0000, n);
    InNet(0xC0A8_0000, 16, 0x1_0000, n);
    InNet(0x7F00_0000, 8, 0x100_0000, n);
    InNet(0xA9FE_0000, 16, 0x1_0000, n);
  }

  lemma OtherFamily(n: nat)
    ensures forall base: nat, prefix: nat :: !Contains(Net(V6(base), prefix), V4(n))
  {
  }

  lemma InNet6(base: nat, prefix: nat, m: nat, n: nat)
    requires prefix <= 128 && Pow2(128 - prefix) == m
    ensures Contains(Net(V6(base), prefix), V6(n)) <==> base - base % m <= n < base - base % m + m
  {
    ContainsIsInterval(Net(V6(base), prefix), V6(n));
  }

  lemma Powers6()
    ensures Pow2(118) == 0x40_0000_0000_0000_0000_0000_0000_0000
    ensures Pow2(121) == 0x200_0000_0000_0000_0000_0000_0000_0000
  {
    hide Pow2;
    Powers();
    SmallPowers();
    PowAdds(16, 16);
    PowAdds(32, 32);
    PowAdds(64, 32);
    PowAdds(96, 20);
    PowAdds(116, 2);
    PowAdds(116, 5);
  }

  lemma SmallPowers()
    ensures Pow2(2) == 4 && Pow2(5) == 32
  {
    FourMore(1);
  }

  lemma {:induction false} PowAdds(j: nat, k: nat)
    ensures Pow2(j + k) == Pow2(j) * Pow2(k)
  {
    if k > 0 {
      PowAdds(j, k - 1);
    }
  }

  /** And of the IPv6 addresses these. */
  lemma LanIntervals6(p: Parser, ip: string, n: nat)
    requires p.ip(ip) == Some(V6(n))
    ensures IsLan(p, ip) <==>
      || n == 1                              // ::1
      || 0xFC00_0000_0000_0000_0000_0000_0000_0000 <= n < 0xFE00_0000_0000_0000_0000_0000_0000_0000   // fc00::/7
      || 0xFE80_0000_0000_0000_0000_0000_0000_0000 <= n < 0xFEC0_0000_0000_0000_0000_0000_0000_0000   // fe80::/10
  {
    OtherFamily6(n);
    hide Contains, Pow2;
    Powers6();
    InNet6(0xFC00_0000_0000_0000_0000_0000_0000_0000, 7, 0x200_0000_0000_0000_0000_0000_0000_0000, n);
    InNet6(0xFE80_0000_0000_0000_0000_0000_0000_0000, 10, 0x40_0000_0000_0000_0000_0000_0000_0000, n);
  }

  lemma OtherFamily6(n: nat)
    ensures forall base: nat, prefix: nat :: !Contains(Net(V4(base), prefix), V6(n))
  {
  }
}
