/** The private networks that `geoip:private` stands for in sing-box rules
    (pkg/compiler/singbox/routing.go:267-277). */
module Lan {
  import opened Arithmetic
  import opened Common
  import opened RoutingAst
  import opened Cidr
  import Backends

  // fc00:: as a number.
  const UNIQUE_LOCAL := 0xFC00_0000_0000_0000_0000_0000_0000_0000

  // 10/8, 172.16/12, 192.168/16 and 127/8; fc00::/7 and ::1.
  predicate IsLan(a: Addr) {
    if a.v6 then UNIQUE_LOCAL <= a.value < 0xFE00_0000_0000_0000_0000_0000_0000_0000 || a.value == 1
    else
      || 0x0A00_0000 <= a.value < 0x0B00_0000 || 0xAC10_0000 <= a.value < 0xAC20_0000
      || 0xC0A8_0000 <= a.value < 0xC0A9_0000 || 0x7F00_0000 <= a.value < 0x8000_0000
  }

  // The text is read as this network.
  predicate ReadsAs(codec: Codec, text: string, v6: bool, base: nat, len: nat) {
    codec.parse(text).Some? && codec.parse(text).value.v6 == v6
    && codec.parse(text).value.base == base && codec.parse(text).value.len == len
  }

  predicate ReadsLan(codec: Codec) {
    && ReadsAs(codec, "10.0.0.0/8", false, 0x0A00_0000, 8)
    && ReadsAs(codec, "172.16.0.0/12", false, 0xAC10_0000, 12)
    && ReadsAs(codec, "192.168.0.0/16", false, 0xC0A8_0000, 16)
    && ReadsAs(codec, "127.0.0.0/8", false, 0x7F00_0000, 8)
    && ReadsAs(codec, "fc00::/7", true, UNIQUE_LOCAL, 7)
    && ReadsAs(codec, "::1/128", true, 1, 128)
  }

  // The core looks networks up by what their texts are read as.
  ghost predicate LooksUp(codec: Codec, t: Backends.BoxTests, a: Addr) {
    forall s | codec.parse(s).Some? :: t.cidr(s) <==> codec.parse(s).value.Contains(a)
  }

  lemma PowersMultiply(n: nat, k: nat, sum: nat, a: nat, b: nat)
    requires Pow2(n) == a && Pow2(k) == b && sum == n + k
    ensures Pow2(sum) == a * b
  {
    Pow2Splits(n, k);
  }

  lemma SmallSizes()
    ensures Pow2(0) == 1 && Pow2(1) == 2 && Pow2(4) == 0x10 && Pow2(8) == 0x100 && Pow2(16) == 0x1_0000
  {
    PowersMultiply(1, 1, 2, 2, 2);
    PowersMultiply(2, 2, 4, 4, 4);
    PowersMultiply(4, 4, 8, 0x10, 0x10);
    PowersMultiply(8, 8, 16, 0x100, 0x100);
  }

  lemma NetSizes()
    ensures Pow2(16) == 0x1_0000 && Pow2(20) == 0x10_0000 && Pow2(24) == 0x100_0000 && Pow2(32) == 0x1_0000_0000
  {
    SmallSizes();
    PowersMultiply(16, 4, 20, 0x1_0000, 0x10);
    PowersMultiply(16, 8, 24, 0x1_0000, 0x100);
    PowersMultiply(16, 16, 32, 0x1_0000, 0x1_0000);
  }

  lemma WideSizes()
    ensures Pow2(0) == 1 && Pow2(121) == 0x200_0000_0000_0000_0000_0000_0000_0000
    ensures Pow2(128) == 0x1_0000_0000_0000_0000_0000_0000_0000_0000
  {
    SmallSizes();
    NetSizes();
    PowersMultiply(32, 32, 64, 0x1_0000_0000, 0x1_0000_0000);
    PowersMultiply(64, 32, 96, 0x1_0000_0000_0000_0000, 0x1_0000_0000);
    PowersMultiply(96, 24, 120, 0x1_0000_0000_0000_0000_0000_0000, 0x100_0000);
    PowersMultiply(120, 1, 121, 0x100_0000_0000_0000_0000_0000_0000_0000, 2);
    PowersMultiply(120, 8, 128, 0x100_0000_0000_0000_0000_0000_0000_0000, 0x100);
  }

  lemma SameQuotient(value: nat, base: nat, size: nat)
    requires size > 0 && base % size == 0
    ensures value / size == base / size <==> base <= value < base + size
  {
    var q := base / size;
    assert base == size * q;
    if value / size == q {
      assert value == size * q + value % size;
    }
    if base <= value < base + size {
      QuotientIs(value, size, q, value - base);
    }
  }

  // A network is its addresses from the base on.
  lemma NetIsARange(n: Net, a: Addr)
    ensures n.Contains(a) <==> a.v6 == n.v6 && n.base <= a.value < n.base + n.Size()
  {
    SameQuotient(a.value, n.base, n.Size());
  }

  lemma LooksUpRange(codec: Codec, t: Backends.BoxTests, a: Addr, text: string, v6: bool, base: nat, len: nat)
    requires LooksUp(codec, t, a) && ReadsAs(codec, text, v6, base, len)
    ensures len <= (if v6 then 128 else 32)
    ensures t.cidr(text) <==> a.v6 == v6 && base <= a.value < base + Pow2((if v6 then 128 else 32) - len)
  {
    NetIsARange(codec.parse(text).value, a);
  }

  lemma AnyOfSix(test: string -> bool, a: string, b: string, c: string, d: string, e: string, f: string)
    ensures Any(test, [a, b, c, d, e, f]) <==> test(a) || test(b) || test(c) || test(d) || test(e) || test(f)
  {
    var all := [a, b, c, d, e, f];
    assert all[0] == a && all[1] == b && all[2] == c && all[3] == d && all[4] == e && all[5] == f;
  }

  /** Where the core reads networks as the codec does, `geoip:private` passes for the addresses of the six
      private networks and no others. */
  lemma PrivateIsTheLan(codec: Codec, t: Backends.BoxTests, a: Addr)
    requires ReadsLan(codec) && LooksUp(codec, t, a)
    ensures Backends.IPTest(t, "geoip:private") <==> IsLan(a)
  {
    NetSizes();
    WideSizes();
    LooksUpRange(codec, t, a, "10.0.0.0/8", false, 0x0A00_0000, 8);
    LooksUpRange(codec, t, a, "172.16.0.0/12", false, 0xAC10_0000, 12);
    LooksUpRange(codec, t, a, "192.168.0.0/16", false, 0xC0A8_0000, 16);
    LooksUpRange(codec, t, a, "127.0.0.0/8", false, 0x7F00_0000, 8);
    LooksUpRange(codec, t, a, "fc00::/7", true, UNIQUE_LOCAL, 7);
    LooksUpRange(codec, t, a, "::1/128", true, 1, 128);
    AnyOfSix(t.cidr, "10.0.0.0/8", "172.16.0.0/12", "192.168.0.0/16", "127.0.0.0/8", "fc00::/7", "::1/128");
    PrivateAsksForSix(t);
  }

  lemma PrivateAsksForSix(t: Backends.BoxTests)
    ensures Backends.IPTest(t, "geoip:private") <==>
            Any(t.cidr, ["10.0.0.0/8", "172.16.0.0/12", "192.168.0.0/16", "127.0.0.0/8", "fc00::/7", "::1/128"])
  {}

  /** For any other country a sing-box rule asks for its rule set. */
  lemma CountriesAskForTheirSet(t: Backends.BoxTests, country: string)
    requires country != "private"
    ensures Backends.IPTest(t, "geoip:" + country) <==> t.ruleSet("geoip-" + country)
  {
    var ip := "geoip:" + country;
    assert ip[|"geoip:"|..] == country;
    assert "geoip:private"[|"geoip:"|..] == "private";
  }
}
