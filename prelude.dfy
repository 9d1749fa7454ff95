// Machine integer widths, byte sequences and error wrappers shared by
// every module of the model.
module Prelude {

  type byte = x: int | 0 <= x < 0x100
  type uint16 = x: int | 0 <= x < 0x1_0000
  type uint32 = x: int | 0 <= x < 0x1_0000_0000
  type int8 = x: int | -0x80 <= x < 0x80
  type int16 = x: int | -0x8000 <= x < 0x8000

  datatype Option<T> = None | Some(value: T)

  datatype Result<T, E> = Ok(value: T) | Err(error: E)

  /** A C function pointer: NULL, or the registered function with the given identity. */
  datatype Hook = NoHook | Hook(id: nat)

  /** Truncation of an unbounded integer to the C types the firmware uses. */
  function U8(x: int): byte { x % 0x100 }
  function U16(x: int): uint16 { x % 0x1_0000 }
  function U32(x: int): uint32 { x % 0x1_0000_0000 }

  lemma U16Exact(x: int)
    requires 0 <= x < 0x1_0000
    ensures U16(x) == x
  {
  }

  lemma U32Exact(x: int)
    requires 0 <= x < 0x1_0000_0000
    ensures U32(x) == x
  {
  }

  function Min(a: int, b: int): int { if a <= b then a else b }

  /** `n` zero bytes, what `memset(p, 0, n)` leaves behind. */
  function Zeros(n: nat): (z: seq<byte>)
    ensures |z| == n
    ensures forall k :: 0 <= k < n ==> z[k] == 0
  {
    seq(n, _ => 0)
  }

  /** Little-endian 16-bit value at `s[at]`, `s[at+1]`. */
  function LE16(s: seq<byte>, at: nat): (v: uint16)
    requires at + 2 <= |s|
  {
    s[at] as int + 0x100 * s[at + 1] as int
  }

  /** The two bytes of the little-endian encoding of `v`. */
  function LE16Bytes(v: uint16): (b: seq<byte>)
    ensures |b| == 2
    ensures LE16(b, 0) == v
  {
    [v % 0x100, v / 0x100]
  }

  /** Little-endian 32-bit value at `s[at..at+4]`. */
  function LE32(s: seq<byte>, at: nat): (v: uint32)
    requires at + 4 <= |s|
  {
    s[at] as int + 0x100 * s[at + 1] as int + 0x1_0000 * s[at + 2] as int + 0x100_0000 * s[at + 3] as int
  }

  function LE32Bytes(v: uint32): (b: seq<byte>)
    ensures |b| == 4
    ensures LE32(b, 0) == v
  {
    var q1 := v / 0x100;
    var q2 := q1 / 0x100;
    assert v == v % 0x100 + 0x100 * q1 && q1 == q1 % 0x100 + 0x100 * q2 && q2 == q2 % 0x100 + 0x100 * (q2 / 0x100);
    [v % 0x100, q1 % 0x100, q2 % 0x100, q2 / 0x100]
  }

  /** Four bytes survive the trip through their little-endian value. */
  lemma LE32BytesOf(s: seq<byte>)
    requires |s| == 4
    ensures LE32Bytes(LE32(s, 0)) == s
  {
    var v := LE32(s, 0);
    var t: nat := s[1] as int + 0x100 * s[2] as int + 0x1_0000 * s[3] as int;
    assert v == s[0] as int + 0x100 * t;
    DigitOf(s[0], t);
    DigitOf(s[1], s[2] as int + 0x100 * s[3] as int);
    DigitOf(s[2], s[3]);
  }

  lemma DigitOf(d: byte, rest: nat)
    ensures (d + 0x100 * rest) % 0x100 == d && (d + 0x100 * rest) / 0x100 == rest
  {
  }

  /** Quotient and remainder are the only ones with the remainder in range. */
  lemma DivModUnique(v: int, n: int, q: int, r: int)
    requires n > 0 && v == n * q + r && 0 <= r < n
    ensures v / n == q && v % n == r
  {
    var q', r' := v / n, v % n;
    assert n * (q - q') == r' - r;
    if q > q' {
      MulAtLeast(n, q - q');
      assert false;
    } else if q < q' {
      assert n * (q' - q) == r - r';
      MulAtLeast(n, q' - q);
      assert false;
    }
  }

  lemma {:induction false} MulAtLeast(n: nat, d: nat)
    requires d >= 1
    ensures n * d >= n
    decreases d
  {
    if d > 1 {
      MulAtLeast(n, d - 1);
      assert n * d == n * (d - 1) + n;
    }
  }

  /** Big-endian 16 and 32-bit values, as SCSI command blocks carry them. */
  function BE16(s: seq<byte>, at: nat): (v: uint16)
    requires at + 2 <= |s|
  {
    0x100 * s[at] as int + s[at + 1] as int
  }

  function BE32(s: seq<byte>, at: nat): (v: uint32)
    requires at + 4 <= |s|
  {
    0x100_0000 * s[at] as int + 0x1_0000 * s[at + 1] as int + 0x100 * s[at + 2] as int + s[at + 3] as int
  }

  /** Bitwise operations on bytes, `a & b`, `a | b` and `a & ~b`. */
  function And8(a: byte, b: byte): byte { ((a as bv8) & (b as bv8)) as int }
  function Or8(a: byte, b: byte): byte { ((a as bv8) | (b as bv8)) as int }
  function Clear8(a: byte, b: byte): byte { ((a as bv8) & !(b as bv8)) as int }

  /** The two bytes of a little-endian `int16_t` in two's complement. */
  function I16Bytes(v: int16): (b: seq<byte>)
    ensures |b| == 2
  {
    LE16Bytes(U16(v))
  }

  /** The `int16_t` stored little-endian at `s[at]`, `s[at+1]`. */
  function I16At(s: seq<byte>, at: nat): int16
    requires at + 2 <= |s|
  {
    var u := LE16(s, at);
    if u >= 0x8000 then u - 0x1_0000 else u
  }

  /** Two bytes survive the trip through their `int16_t` value. */
  lemma I16BytesOf(s: seq<byte>)
    requires |s| == 2
    ensures I16Bytes(I16At(s, 0)) == s
  {
    DigitOf(s[0], s[1]);
  }

  /** An `int16_t` comes back from its two bytes. */
  lemma I16RoundTrip(v: int16)
    ensures I16At(I16Bytes(v), 0) == v
  {
    assert LE16(LE16Bytes(U16(v)), 0) == U16(v);
  }
}
