/** LoRa time on air, in the source's integer arithmetic: the positive lower bound
    that the duty cycle and the retransmission timers rest on. */
module Radio {
  import opened Basics
  import opened Bits

  /** The modem settings that decide a frame's time on air. */
  datatype Profile = Profile(
    bandwidthHz: u32, spreadingFactor: byte, codingRate: byte, preambleSymbols: u16, crc: bool, implicitHeader: bool)
  {
    /** The settings a LoRa modem has; with them no 64-bit product below overflows. */
    predicate Sound() { bandwidthHz > 0 && 5 <= spreadingFactor <= 12 }

    function SymbolTimeUs(): u32
      requires Sound()
    {
      Pow2(spreadingFactor) * 1_000_000 / bandwidthHz % U32
    }

    predicate LowDataRate()
      requires Sound()
    {
      SymbolTimeUs() > 16_000
    }

    function PayloadSymbols(len: nat): nat
      requires Sound()
    {
      var de := if LowDataRate() then 1 else 0;
      var num := 8 * len - 4 * spreadingFactor + 28 + (if crc then 16 else 0) - (if implicitHeader then 20 else 0);
      Symbols(num, 4 * (spreadingFactor - 2 * de), Max(1, Min(codingRate - 4, 4)))
    }

    /** Preamble and payload in microseconds, before it is cut to 32 bits. */
    function Duration(len: nat): nat
      requires Sound()
    {
      OnAir(preambleSymbols, PayloadSymbols(len), SymbolTimeUs())
    }

    function AirtimeUs(len: nat): u32
      requires Sound()
    {
      Duration(len) % U32
    }

    function AirtimeMs(len: nat): u32
      requires Sound()
    {
      (AirtimeUs(len) + 999) / 1000
    }
  }

  type SoundProfile = p: Profile | p.Sound() witness EU868

  const EU868 := Profile(125_000, 8, 5, 32, true, false)
  const EU868_LONG := EU868.(spreadingFactor := 10, codingRate := 6)
  const EU868_FAST := EU868.(spreadingFactor := 7, bandwidthHz := 250_000)

  /** Payload symbols for `num` bits in blocks of `den`, with `cr` parity symbols a block. */
  function Symbols(num: int, den: int, cr: nat): nat
    requires den > 0
  {
    8 + Max((num + den - 1) / den, 0) * (cr + 4)
  }

  /** A preamble of n + 4.25 symbols and the payload symbols. */
  function OnAir(preamble: nat, payload: nat, symbolTime: nat): nat {
    (preamble * 4 + 17) * symbolTime / 4 + payload * symbolTime
  }

  lemma DivMonotone(x: int, y: int, d: int)
    requires x <= y && d > 0
    ensures x / d <= y / d
  {
    var q, r := x / d, y / d;
    assert q * d <= x;
    assert y < (r + 1) * d;
    MulCancel(q, r + 1, d);
  }

  lemma SymbolsMonotone(num: int, num': int, den: int, cr: nat)
    requires num <= num' && den > 0
    ensures Symbols(num, den, cr) <= Symbols(num', den, cr)
  {
    DivMonotone(num + den - 1, num' + den - 1, den);
    MulMonotone(Max((num + den - 1) / den, 0), Max((num' + den - 1) / den, 0), cr + 4);
  }

  lemma OnAirMonotone(preamble: nat, payload: nat, preamble': nat, payload': nat, ts: nat)
    requires preamble <= preamble' && payload <= payload'
    ensures OnAir(preamble, payload, ts) <= OnAir(preamble', payload', ts)
  {
    MulMonotone(preamble * 4 + 17, preamble' * 4 + 17, ts);
    DivMonotone((preamble * 4 + 17) * ts, (preamble' * 4 + 17) * ts, 4);
    MulMonotone(payload, payload', ts);
  }

  lemma DurationMonotone(p: Profile, short: nat, long: nat)
    requires p.Sound() && short <= long
    ensures p.Duration(short) <= p.Duration(long)
  {
    var k := -4 * p.spreadingFactor + 28 + (if p.crc then 16 else 0) - (if p.implicitHeader then 20 else 0);
    SymbolsMonotone(8 * short + k, 8 * long + k, 4 * (p.spreadingFactor - if p.LowDataRate() then 2 else 0), Max(1, Min(p.codingRate - 4, 4)));
    OnAirMonotone(p.preambleSymbols, p.PayloadSymbols(short), p.preambleSymbols, p.PayloadSymbols(long), p.SymbolTimeUs());
  }

  /** A longer frame takes no less time on air, as long as the 32-bit result holds it. */
  lemma AirtimeMonotone(p: Profile, short: nat, long: nat)
    requires p.Sound() && short <= long && p.Duration(long) < U32
    ensures p.AirtimeMs(short) <= p.AirtimeMs(long)
  {
    DurationMonotone(p, short, long);
    Untruncated(p.Duration(short), p.Duration(long));
  }

  /** Below 2^32 microseconds the cut to 32 bits and the rounding keep the order. */
  lemma Untruncated(d: nat, d': nat)
    requires d <= d' < U32
    ensures (d % U32 + 999) / 1000 <= (d' % U32 + 999) / 1000 && d' % U32 == d'
  {
    DivMonotone(d + 999, d' + 999, 1000);
  }

  /** A frame spends at least the preamble and eight symbols on air, so its airtime is
      positive whenever a symbol takes any time at all. */
  lemma AirtimePositive(p: Profile, len: nat)
    requires p.Sound() && p.SymbolTimeUs() > 0 && p.Duration(len) < U32
    ensures p.AirtimeUs(len) >= 12 * p.SymbolTimeUs() && p.AirtimeMs(len) >= 1
  {
    OnAirMonotone(0, 8, p.preambleSymbols, p.PayloadSymbols(len), p.SymbolTimeUs());
    LeastOnAir(p.SymbolTimeUs(), p.Duration(len));
  }

  lemma LeastOnAir(ts: nat, d: nat)
    requires 0 < ts && OnAir(0, 8, ts) <= d < U32
    ensures d % U32 >= 12 * ts && (d % U32 + 999) / 1000 >= 1
  {
  }

  lemma Powers()
    ensures Pow2(7) == 128 && Pow2(8) == 256 && Pow2(10) == 1024
  {
    assert Pow2(4) == 16;
    assert Pow2(7) == 8 * Pow2(4);
    assert Pow2(8) == 2 * Pow2(7);
    assert Pow2(10) == 4 * Pow2(8);
  }

  /** Frames of a bare header (31 bytes) and of full length on the EU profiles. */
  lemma DefaultDurations()
    ensures EU868.Sound() && EU868.Duration(31) == 182_784 && EU868.Duration(255) < 1_000_000
  {
    Powers();
    assert EU868.SymbolTimeUs() == 2048;
    assert EU868.PayloadSymbols(31) == Symbols(260, 32, 1) == 53;
    assert EU868.PayloadSymbols(255) == Symbols(2052, 32, 1) == 333;
  }

  lemma LongDurations()
    ensures EU868_LONG.Sound() && EU868_LONG.Duration(31) == 706_560 && EU868_LONG.Duration(255) < 4_000_000
  {
    Powers();
    assert EU868_LONG.SymbolTimeUs() == 8192;
    assert EU868_LONG.PayloadSymbols(31) == Symbols(252, 40, 2) == 50;
    assert EU868_LONG.PayloadSymbols(255) == Symbols(2044, 40, 2) == 320;
  }

  lemma FastDurations()
    ensures EU868_FAST.Sound() && EU868_FAST.Duration(31) == 48_256 && EU868_FAST.Duration(255) < 1_000_000
  {
    Powers();
    assert EU868_FAST.SymbolTimeUs() == 512;
    assert EU868_FAST.PayloadSymbols(31) == Symbols(264, 28, 1) == 58;
    assert EU868_FAST.PayloadSymbols(255) == Symbols(2056, 28, 1) == 378;
  }

  /** The least airtime of any frame on the EU profiles. */
  lemma LeastAirtimes(len: nat)
    requires 31 <= len <= 255
    ensures EU868.Sound() && EU868_LONG.Sound() && EU868_FAST.Sound()
    ensures EU868.AirtimeMs(len) >= 183 && EU868_LONG.AirtimeMs(len) >= 707 && EU868_FAST.AirtimeMs(len) >= 49
  {
    DefaultDurations();
    LongDurations();
    FastDurations();
    forall p | p in [EU868, EU868_LONG, EU868_FAST] ensures p.AirtimeMs(31) <= p.AirtimeMs(len) {
      DurationMonotone(p, len, 255);
      AirtimeMonotone(p, 31, len);
    }
  }
}
