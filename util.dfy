/** Small shared vocabulary: bytes, 32-bit words, an Option type and the
    C-string conventions (NUL-terminated, zero-padded fixed buffers) that the
    kernel's buffers follow. */
module Util {

  /** An unsigned 8-bit value (`uint8_t`, `char` stored in a buffer). */
  type byte = b: int | 0 <= b < 256

  /** An unsigned 32-bit value (`uint32_t`). */
  type u32 = w: int | 0 <= w < 0x1_0000_0000

  /** A signed 32-bit value (`int32_t`), as system-call arguments arrive. */
  type i32 = v: int | -0x8000_0000 <= v < 0x8000_0000

  const NUL: byte := 0
  const NEWLINE: byte := 10
  const SPACE: byte := 32

  datatype Option<T> = None | Some(value: T)

  /** The contents of a C string: the bytes before its terminating NUL. */
  predicate NoNul(s: seq<byte>) {
    forall i :: 0 <= i < |s| ==> s[i] != NUL
  }

  /** `strlen` of a fixed buffer that need not hold a NUL: the index of the
      first NUL, or the whole length when there is none. */
  function CStrLen(s: seq<byte>): (n: nat)
    ensures n <= |s|
    ensures NoNul(s[..n])
    ensures n < |s| ==> s[n] == NUL
  {
    if |s| == 0 then 0
    else if s[0] == NUL then 0
    else
      var m := CStrLen(s[1..]);
      assert s[..1 + m] == [s[0]] + s[1..][..m];
      1 + m
  }

  /** `n` zero bytes. */
  function Zeros(n: nat): (z: seq<byte>)
    ensures |z| == n
    ensures forall i :: 0 <= i < n ==> z[i] == NUL
  {
    seq(n, _ => NUL)
  }

  /** What `strncpy(dst, src, n)` leaves in `dst[0..n)`: the string in
      `src` up to its first NUL, cut at `n` bytes and padded with NULs. */
  function StrNCpy(src: seq<byte>, n: nat): (d: seq<byte>)
    ensures |d| == n
    ensures forall i :: 0 <= i < n ==>
      d[i] == (if i < CStrLen(src) then src[i] else NUL)
  {
    var k := CStrLen(src);
    if k >= n then src[..n] else src[..k] + Zeros(n - k)
  }

  /** A NUL-free string cut or zero-padded to exactly `n` bytes, as the
      kernel's zeroed fixed buffers hold it. */
  function Pad(s: seq<byte>, n: nat): (d: seq<byte>)
    ensures |d| == n
    ensures forall i :: 0 <= i < n ==> d[i] == (if i < |s| then s[i] else NUL)
  {
    if |s| >= n then s[..n] else s + Zeros(n - |s|)
  }

  /** A NUL-free string shorter than the buffer comes back out of it. */
  lemma PadThenStrLen(s: seq<byte>, n: nat)
    requires NoNul(s) && |s| < n
    ensures CStrLen(Pad(s, n)) == |s|
    ensures Pad(s, n)[..|s|] == s
  {
    var d := Pad(s, n);
    var k := CStrLen(d);
    assert forall i :: 0 <= i < |s| ==> d[i] != NUL;
    assert d[|s|] == NUL;
  }

  /** `strncpy` of a zero-padded buffer into one of the same size copies
      it unchanged. */
  lemma StrNCpyOfPad(s: seq<byte>, n: nat)
    requires NoNul(s) && |s| < n
    ensures StrNCpy(Pad(s, n), n) == Pad(s, n)
  {
    PadThenStrLen(s, n);
  }

  /** Little-endian 32-bit word of four bytes, as x86 loads `*(uint32_t*)p`. */
  function Le32(b: seq<byte>): (w: u32)
    requires |b| == 4
    ensures w % 256 == b[0]
  {
    b[0] as int + 256 * (b[1] as int) + 65536 * (b[2] as int) + 16777216 * (b[3] as int)
  }

  /** The four bytes of a 32-bit word, least significant first. */
  function Le32Bytes(w: u32): (b: seq<byte>)
    ensures |b| == 4
  {
    [w % 256, (w / 256) % 256, (w / 65536) % 256, w / 16777216]
  }

  lemma {:induction false} Le32RoundTrip(w: u32)
    ensures Le32(Le32Bytes(w)) == w
  {
    var b := Le32Bytes(w);
    assert w == w % 256 + 256 * (w / 256);
    assert w / 256 == (w / 256) % 256 + 256 * (w / 65536);
    assert w / 65536 == (w / 65536) % 256 + 256 * (w / 16777216);
  }

  /** The same four bytes read as a signed `int32_t`. */
  function Int32Of(b: seq<byte>): (v: int)
    requires |b| == 4
    ensures -0x8000_0000 <= v < 0x8000_0000
    ensures v % 0x1_0000_0000 == Le32(b)
  {
    var w := Le32(b);
    if w < 0x8000_0000 then w else w - 0x1_0000_0000
  }

  function Min(a: int, b: int): int { if a <= b then a else b }
}
