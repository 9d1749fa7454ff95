// String descriptors (section 9.6.7 of USB 2.0): a length byte, the
// STRING type byte, then the text in UTF-16LE. The firmware only ever
// widens 8-bit characters, so each character becomes the pair (c, 0).
module UsbStrings {
  import opened Prelude
  import opened UsbCore

  /** `USB_DESCRIPTOR_STRING_LEN(n)`: the header and `n` two-byte characters. */
  function StringLen(n: int): int { 2 + 2 * n }

  /** The characters widened to UTF-16LE code units. */
  function Utf16(s: seq<byte>): (r: seq<byte>)
    ensures |r| == 2 * |s|
  {
    if s == [] then [] else Utf16(s[..|s| - 1]) + [s[|s| - 1], 0]
  }

  /** Every code unit of a widened string: the character, then a zero byte. */
  lemma {:induction false} Utf16At(s: seq<byte>, i: nat)
    requires i < |s|
    ensures Utf16(s)[2 * i] == s[i] && Utf16(s)[2 * i + 1] == 0
    decreases |s|
  {
    if i < |s| - 1 {
      var front := s[..|s| - 1];
      Utf16At(front, i);
    }
  }

  /** The low bytes of a run of UTF-16LE code units. */
  function LowBytes(u: seq<byte>): (r: seq<byte>)
    ensures |r| == |u| / 2
  {
    if |u| < 2 then [] else LowBytes(u[..|u| - 2]) + [u[|u| - 2]]
  }

  /** Widening then taking the low bytes gives the characters back. */
  lemma {:induction false} LowBytesUtf16(s: seq<byte>)
    ensures LowBytes(Utf16(s)) == s
    decreases |s|
  {
    if s != [] {
      var front := s[..|s| - 1];
      var u := Utf16(s);
      assert u[..|u| - 2] == Utf16(front);
      LowBytesUtf16(front);
      assert s == front + [s[|s| - 1]];
    }
  }

  /** A string descriptor with the given length byte and text. */
  function StringBytes(header: byte, s: seq<byte>): (r: seq<byte>)
    ensures |r| == StringLen(|s|)
  {
    [header, STRING_DESCRIPTOR] + Utf16(s)
  }

  /** A descriptor whose length byte is its own length and whose type byte is STRING. */
  predicate WellFormed(d: seq<byte>)
  {
    2 <= |d| && d[0] == |d| && d[1] == STRING_DESCRIPTOR
  }

  /** The text a string descriptor carries. */
  function Text(d: seq<byte>): seq<byte>
    requires 2 <= |d|
  {
    LowBytes(d[2..])
  }

  /** The text written into a descriptor is the text read back from it. */
  lemma TextOfStringBytes(header: byte, s: seq<byte>)
    ensures Text(StringBytes(header, s)) == s
  {
    assert StringBytes(header, s)[2..] == Utf16(s);
    LowBytesUtf16(s);
  }

  /**
   * With the length byte `USB_DESCRIPTOR_STRING_LEN(n)` the descriptor is
   * well formed exactly when that length fits in the byte, up to 126
   * characters.
   */
  lemma StringLenHeader(s: seq<byte>)
    ensures WellFormed(StringBytes(U8(StringLen(|s|)), s)) <==> |s| <= 126
  {
    if |s| > 126 {
      assert StringLen(|s|) >= 0x100;
    }
  }

  /**
   * With the character count as the length byte the descriptor is never
   * well formed: the byte always claims less than the descriptor holds.
   */
  lemma CharCountHeader(s: seq<byte>)
    ensures !WellFormed(StringBytes(U8(|s|), s))
  {
    var d := StringBytes(U8(|s|), s);
    if |s| < 0x100 {
      assert d[0] == |s| < |d|;
    }
  }

  /**
   * The loop that writes the text of a string descriptor: character `i` at
   * `out[2 + 2i]` and a zero at `out[3 + 2i]`, for the first `n` characters.
   */
  method WriteChars(out: array<byte>, s: seq<byte>, n: nat)
    requires n <= |s| && StringLen(n) <= out.Length
    modifies out
    ensures out[2..StringLen(n)] == Utf16(s[..n])
    ensures out[..2] == old(out[..2]) && out[StringLen(n)..] == old(out[StringLen(n)..])
  {
    var i := 0;
    while i < n
      invariant 0 <= i <= n
      invariant out[2..StringLen(i)] == Utf16(s[..i])
      invariant out[..2] == old(out[..2]) && out[StringLen(i)..] == old(out[StringLen(i)..])
    {
      ghost var before := out[..];
      out[2 + 2 * i] := s[i];
      out[2 + 1 + 2 * i] := 0;
      CharsStep(old(out[..]), before, out[..], s, i);
      i := i + 1;
    }
  }

  /** One pass of `WriteChars`: two more bytes of text after the first `i` characters, the rest as it was. */
  lemma CharsStep(o: seq<byte>, before: seq<byte>, after: seq<byte>, s: seq<byte>, i: nat)
    requires i < |s| && StringLen(i + 1) <= |o| == |before| == |after|
    requires before[2..StringLen(i)] == Utf16(s[..i])
    requires before[..2] == o[..2] && before[StringLen(i)..] == o[StringLen(i)..]
    requires after == before[2 + 2 * i := s[i]][3 + 2 * i := 0]
    ensures after[2..StringLen(i + 1)] == Utf16(s[..i + 1])
    ensures after[..2] == o[..2] && after[StringLen(i + 1)..] == o[StringLen(i + 1)..]
  {
    assert s[..i + 1][..i] == s[..i];
    assert after[2..StringLen(i + 1)] == before[2..StringLen(i)] + [s[i], 0];
    assert after[StringLen(i + 1)..] == before[StringLen(i)..][2..];
    assert o[StringLen(i + 1)..] == o[StringLen(i)..][2..];
  }
}
