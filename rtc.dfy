/** The MC146818 real-time clock as the kernel drives it: the periodic
    interrupt frequency is chosen through the 4-bit rate field in the low
    nibble of register A, where frequency = 32768 >> (rate - 1). */
module Rtc {
  import opened Util

  function Pow2(n: nat): (p: nat)
    ensures p >= 1
  {
    if n == 0 then 1 else 2 * Pow2(n - 1)
  }

  /** The frequencies the driver accepts. */
  predicate Supported(freq: int) {
    freq in {2, 4, 8, 16, 32, 64, 128, 256, 512, 1024}
  }

  /** The rate `rtc_change_freq` selects for `freq`, or None for the
      `default` branch. */
  function RateFor(freq: int): (r: Option<bv8>)
    ensures r.Some? <==> Supported(freq)
    ensures r.Some? ==> 0x06 <= r.value <= 0x0F
  {
    match freq
    case 1024 => Some(0x06)
    case 512 => Some(0x07)
    case 256 => Some(0x08)
    case 128 => Some(0x09)
    case 64 => Some(0x0A)
    case 32 => Some(0x0B)
    case 16 => Some(0x0C)
    case 8 => Some(0x0D)
    case 4 => Some(0x0E)
    case 2 => Some(0x0F)
    case _ => None
  }

  /** The powers of two the rate field spans. */
  lemma Pow2Table()
    ensures Pow2(5) == 32 && Pow2(6) == 64 && Pow2(7) == 128 && Pow2(8) == 256 && Pow2(9) == 512
    ensures Pow2(10) == 1024 && Pow2(11) == 2048 && Pow2(12) == 4096 && Pow2(13) == 8192 && Pow2(14) == 16384
  {
    assert Pow2(2) == 4;
    assert Pow2(4) == 16;
    assert Pow2(6) == 64;
    assert Pow2(8) == 256;
    assert Pow2(10) == 1024;
    assert Pow2(12) == 4096;
  }

  /** The selected rate satisfies frequency = 32768 >> (rate - 1). */
  lemma RateMatchesFormula(freq: int)
    requires Supported(freq)
    ensures freq == 32768 / Pow2(RateFor(freq).value as nat - 1)
  {
    Pow2Table();
  }

  /** Every rate from 6 to 15 is reached, by exactly its own frequency:
      the table is the inverse of frequency = 32768 >> (rate - 1). */
  lemma {:induction false} RateTableInverse(rate: bv8)
    requires 0x06 <= rate <= 0x0F
    ensures RateFor(32768 / Pow2(rate as nat - 1)) == Some(rate)
  {
    Pow2Table();
    var n := rate as nat - 1;
    if n == 5 {} else if n == 6 {} else if n == 7 {} else if n == 8 {} else if n == 9 {}
    else if n == 10 {} else if n == 11 {} else if n == 12 {} else if n == 13 {} else {}
  }

  /** `(prev & 0xF0) | rate` after `rate &= 0x0F`: the new register A keeps
      the upper nibble of the old one and carries the rate in its low
      nibble. */
  function MergeRegisterA(prev: bv8, rate: bv8): (a: bv8)
    ensures a & 0xF0 == prev & 0xF0
    ensures a & 0x0F == rate & 0x0F
  {
    (prev & 0xF0) | (rate & 0x0F)
  }

  /** The clock's register A, the only device state the driver changes. */
  class Clock {
    var registerA: bv8

    constructor (registerA: bv8)
      ensures this.registerA == registerA
    {
      this.registerA := registerA;
    }

    /** `rtc_change_freq`: 0 and a new rate for a supported frequency,
        -1 and no register write otherwise. */
    method ChangeFreq(freq: int) returns (r: int)
      modifies this
      ensures Supported(freq) ==> r == 0 && registerA == MergeRegisterA(old(registerA), RateFor(freq).value)
      ensures !Supported(freq) ==> r == -1 && registerA == old(registerA)
    {
      var rate := RateFor(freq);
      if rate.None? {
        return -1;
      }
      var masked := rate.value & 0x0F;
      registerA := (registerA & 0xF0) | masked;
      return 0;
    }

    /** `rtc_write`: the buffer (None for NULL) holds the new frequency as
        an `int32_t`; `fd` and `nbytes` are ignored. */
    method Write(buf: Option<int>) returns (r: int)
      modifies this
      ensures buf.None? ==> r == -1 && registerA == old(registerA)
      ensures buf.Some? ==> (r == 0 <==> Supported(buf.value)) && (r == 0 || r == -1)
      ensures buf.Some? && Supported(buf.value) ==> registerA == MergeRegisterA(old(registerA), RateFor(buf.value).value)
      ensures buf.Some? && !Supported(buf.value) ==> registerA == old(registerA)
    {
      if buf.None? {
        return -1;
      }
      var c := ChangeFreq(buf.value);
      if c == -1 {
        return -1;
      }
      return 0;
    }

    /** `rtc_open`: resets the clock to 2 Hz (rate 0x0F). */
    method Open() returns (r: int)
      modifies this
      ensures r == 0
      ensures registerA & 0x0F == 0x0F && registerA & 0xF0 == old(registerA) & 0xF0
    {
      var c := ChangeFreq(2);
      if c == -1 {
        return -1;
      }
      return 0;
    }
  }

  /** `rtc_read`: returns 0 once the next periodic interrupt has arrived
      (the wait for it is not part of this model). */
  function Read(): (r: int)
    ensures r == 0
  {
    0
  }

  /** `rtc_close` has nothing to release. */
  function Close(fd: int): (r: int)
    ensures r == 0
  {
    0
  }
}
