// 8.3 short names of the read-only FAT16 volume
// (examples/readonlyfat16/FAT16ReadOnly.cpp, from83Filename and
// to83Filename): an 11-byte directory name field holds an 8-byte base and a
// 3-byte extension, both padded with spaces, as the "FAT Directory
// Structure" section of Microsoft's FAT specification (fatgen103) lays out.
module Fat16Names {
  import opened Prelude

  const SPACE: byte := 0x20
  const DOT: byte := 0x2E

  /** `toupper` of the C locale: only 'a'..'z' change. */
  function ToUpper(c: byte): (u: byte)
    ensures 'a' as int <= c <= 'z' as int ==> u == c - 32
    ensures !('a' as int <= c <= 'z' as int) ==> u == c
  {
    if 'a' as int <= c <= 'z' as int then c - 32 else c
  }

  function Upper(s: seq<byte>): (u: seq<byte>)
    ensures |u| == |s|
    ensures forall k :: 0 <= k < |s| ==> u[k] == ToUpper(s[k])
  {
    seq(|s|, k requires 0 <= k < |s| => ToUpper(s[k]))
  }

  function Spaces(n: nat): (s: seq<byte>)
    ensures |s| == n && forall k :: 0 <= k < n ==> s[k] == SPACE
  {
    seq(n, _ => SPACE)
  }

  /** The content of a C string: no NUL byte inside. */
  predicate IsCString(s: seq<byte>)
  {
    forall k :: 0 <= k < |s| ==> s[k] != 0
  }

  /** What a C reader sees of a buffer: the bytes before the first NUL. */
  function UpToNul(s: seq<byte>): (r: seq<byte>)
    ensures |r| <= |s| && r <= s
    ensures forall k :: 0 <= k < |r| ==> r[k] != 0
  {
    if s == [] || s[0] == 0 then [] else [s[0]] + UpToNul(s[1..])
  }

  /** Index of the last '.' of `name`, if any. */
  function LastDot(name: seq<byte>): (d: Option<nat>)
    ensures d.Some? ==> d.value < |name| && name[d.value] == DOT
    ensures d.Some? ==> forall k :: d.value < k < |name| ==> name[k] != DOT
    ensures d.None? ==> forall k :: 0 <= k < |name| ==> name[k] != DOT
  {
    if name == [] then None
    else if name[|name| - 1] == DOT then Some(|name| - 1)
    else LastDot(name[..|name| - 1])
  }

  /** Base length of `name`: everything before the last '.', or all of it. */
  function BaseLength(name: seq<byte>): nat
  {
    match LastDot(name)
    case None => |name|
    case Some(d) => d
  }

  /** The characters after the last '.', empty without one. */
  function Extension(name: seq<byte>): seq<byte>
  {
    match LastDot(name)
    case None => []
    case Some(d) => name[d + 1..]
  }

  /** A field of `width` bytes: the first `width` upper-cased bytes of `s`, space padded. */
  function Field(s: seq<byte>, width: nat): (f: seq<byte>)
    ensures |f| == width
  {
    if |s| >= width then Upper(s[..width]) else Upper(s) + Spaces(width - |s|)
  }

  /** The name field to83Filename writes for the C string `name`. */
  function To83(name: seq<byte>): (out: seq<byte>)
    ensures |out| == 11
    ensures name == [] ==> out == Spaces(11)
  {
    Field(name[..BaseLength(name)], 8) + Field(Extension(name), 3)
  }

  /** The field of a C string never starts with NUL, so a directory entry
      holding it is never taken for the end of the table. */
  lemma To83NotNul(name: seq<byte>)
    requires IsCString(name)
    ensures To83(name)[0] != 0
  {
    var base := name[..BaseLength(name)];
    assert To83(name)[0] == Field(base, 8)[0];
    if |base| > 0 {
      assert base[0] == name[0];
    }
  }

  /** Length of the base once its trailing spaces are trimmed. */
  function TrimmedLength(base: seq<byte>): (n: nat)
    ensures n <= |base|
    ensures forall k :: n <= k < |base| ==> base[k] == SPACE
    ensures n > 0 ==> base[n - 1] != SPACE
  {
    if base == [] || base[|base| - 1] != SPACE then |base| else TrimmedLength(base[..|base| - 1])
  }

  /** Number of extension bytes before the first space, at most 3. */
  function ExtLength(ext: seq<byte>): (n: nat)
    requires |ext| == 3
    ensures n <= 3
    ensures forall k :: 0 <= k < n ==> ext[k] != SPACE
    ensures n < 3 ==> ext[n] == SPACE
  {
    if ext[0] == SPACE then 0 else if ext[1] == SPACE then 1 else if ext[2] == SPACE then 2 else 3
  }

  /** The C string from83Filename returns for an 11-byte name field. */
  function From83(name11: seq<byte>): (r: seq<byte>)
    requires |name11| == 11
    ensures |r| <= 12 && forall k :: 0 <= k < |r| ==> r[k] != 0
    ensures name11[0] != SPACE && name11[0] != 0 ==> r != [] && r[0] == name11[0]
  {
    var base := name11[..TrimmedLength(name11[..8])];
    UpToNul(base + ExtTail(name11[8..]))
  }

  /** The extension part of from83Filename's result: a dot and the
      extension bytes before the first space, or nothing. */
  function ExtTail(ext: seq<byte>): (t: seq<byte>)
    requires |ext| == 3
    ensures ext[0] == SPACE <==> t == []
  {
    if ext[0] == SPACE then [] else [DOT] + ext[..ExtLength(ext)]
  }

  /** The names to83Filename and from83Filename carry over unchanged:
      1 to 8 base bytes and 0 to 3 extension bytes, none of them a space,
      a dot, NUL or a lower-case letter. */
  predicate ShortChar(c: byte)
  {
    c != 0 && c != SPACE && c != DOT && ToUpper(c) == c
  }

  predicate AllShort(s: seq<byte>)
  {
    forall k :: 0 <= k < |s| ==> ShortChar(s[k])
  }

  /** A base and an extension joined by a dot; the dot is left out with no extension. */
  function Joined(b: seq<byte>, e: seq<byte>): seq<byte>
  {
    if e == [] then b else b + [DOT] + e
  }

  ghost predicate IsShortName(name: seq<byte>)
  {
    exists b: seq<byte>, e: seq<byte> ::
      1 <= |b| <= 8 && |e| <= 3 && AllShort(b) && AllShort(e) && name == Joined(b, e)
  }

  lemma UpperShort(s: seq<byte>)
    requires AllShort(s)
    ensures Upper(s) == s
  {
  }

  lemma UpToNulOfCString(s: seq<byte>)
    requires IsCString(s)
    ensures UpToNul(s) == s
  {
    if s != [] {
      UpToNulOfCString(s[1..]);
    }
  }

  lemma TrimmedPadded(b: seq<byte>, n: nat)
    requires |b| >= 1 && b[|b| - 1] != SPACE
    ensures TrimmedLength(b + Spaces(n)) == |b|
  {
    if n > 0 {
      assert (b + Spaces(n))[..|b + Spaces(n)| - 1] == b + Spaces(n - 1);
      TrimmedPadded(b, n - 1);
    }
  }

  lemma FieldShort(s: seq<byte>, width: nat)
    requires |s| <= width && AllShort(s)
    ensures Field(s, width) == s + Spaces(width - |s|)
  {
    UpperShort(s);
  }

  /** The extension part from83Filename reads from a padded extension. */
  lemma ExtTailPadded(e: seq<byte>)
    requires |e| <= 3 && AllShort(e)
    ensures ExtTail(e + Spaces(3 - |e|)) == if e == [] then [] else [DOT] + e
  {
    var ext := e + Spaces(3 - |e|);
    if e != [] {
      assert ext[0] == e[0];
      assert ExtLength(ext) == |e|;
      assert ext[..|e|] == e;
    }
  }

  lemma JoinedIsCString(b: seq<byte>, e: seq<byte>)
    requires AllShort(b) && AllShort(e)
    ensures IsCString(Joined(b, e))
  {
  }

  /** The field from83Filename reads back from a to83Filename field. */
  lemma From83Fields(b: seq<byte>, e: seq<byte>)
    requires 1 <= |b| <= 8 && |e| <= 3 && AllShort(b) && AllShort(e)
    ensures From83(b + Spaces(8 - |b|) + (e + Spaces(3 - |e|))) == Joined(b, e)
  {
    var f := b + Spaces(8 - |b|) + (e + Spaces(3 - |e|));
    assert f[..8] == b + Spaces(8 - |b|);
    TrimmedPadded(b, 8 - |b|);
    assert f[..|b|] == b;
    assert f[8..] == e + Spaces(3 - |e|);
    ExtTailPadded(e);
    assert b + ExtTail(f[8..]) == Joined(b, e);
    JoinedIsCString(b, e);
    UpToNulOfCString(Joined(b, e));
  }

  /** The base and extension to83Filename finds in a short name. */
  lemma JoinedParts(b: seq<byte>, e: seq<byte>)
    requires 1 <= |b| <= 8 && |e| <= 3 && AllShort(b) && AllShort(e)
    ensures BaseLength(Joined(b, e)) == |b| && Joined(b, e)[..|b|] == b
    ensures Extension(Joined(b, e)) == e
  {
    var name := Joined(b, e);
    if e == [] {
      assert forall k :: 0 <= k < |name| ==> name[k] == b[k];
      assert LastDot(name) == None;
    } else {
      assert forall k :: |b| < k < |name| ==> name[k] == e[k - |b| - 1];
      LastDotIs(name, |b|);
      assert name[|b| + 1..] == e;
    }
  }

  /** from83Filename undoes to83Filename on short names. */
  lemma RoundTripFrom83To83(b: seq<byte>, e: seq<byte>)
    requires 1 <= |b| <= 8 && |e| <= 3 && AllShort(b) && AllShort(e)
    ensures From83(To83(Joined(b, e))) == Joined(b, e)
  {
    JoinedParts(b, e);
    FieldShort(b, 8);
    FieldShort(e, 3);
    assert To83(Joined(b, e)) == b + Spaces(8 - |b|) + (e + Spaces(3 - |e|));
    From83Fields(b, e);
  }

  /** The same, stated over IsShortName. */
  lemma From83To83(name: seq<byte>)
    requires IsShortName(name)
    ensures From83(To83(name)) == name
  {
    var b: seq<byte>, e: seq<byte> :| 1 <= |b| <= 8 && |e| <= 3 && AllShort(b) && AllShort(e)
      && name == Joined(b, e);
    RoundTripFrom83To83(b, e);
  }

  lemma LastDotIs(name: seq<byte>, d: nat)
    requires d < |name| && name[d] == DOT
    requires forall k :: d < k < |name| ==> name[k] != DOT
    ensures LastDot(name) == Some(d)
  {
    if d < |name| - 1 {
      LastDotIs(name[..|name| - 1], d);
    }
  }

  /** The backwards scan of to83Filename for the last '.'; -1 when there is none. */
  method FindLastDot(name: seq<byte>) returns (ext: int)
    ensures LastDot(name).None? ==> ext == -1
    ensures LastDot(name).Some? ==> ext == LastDot(name).value
  {
    ext := |name| - 1;
    while ext >= 0 && name[ext] != DOT
      invariant -1 <= ext < |name|
      invariant forall k :: ext < k < |name| ==> name[k] != DOT
    {
      ext := ext - 1;
    }
    if ext >= 0 {
      LastDotIs(name, ext);
    }
  }

  /** One field of to83Filename: upper-cased bytes of `src` while both last,
      then spaces, into `buf[at..at+width]`. */
  method FillField(buf: array<byte>, at: nat, src: seq<byte>, width: nat)
    requires at + width <= buf.Length
    modifies buf
    ensures buf[at..at + width] == Field(src, width)
    ensures buf[..at] == old(buf[..at]) && buf[at + width..] == old(buf[at + width..])
  {
    var i := 0;
    while i < width && i < |src|
      invariant 0 <= i <= width && i <= |src|
      invariant forall m :: 0 <= m < i ==> buf[at + m] == ToUpper(src[m])
      invariant buf[..at] == old(buf[..at]) && buf[at + i..] == old(buf[at + i..])
    {
      buf[at + i] := ToUpper(src[i]);
      i := i + 1;
    }
    var copied := i;
    while i < width
      invariant copied <= i <= width
      invariant forall m :: 0 <= m < copied ==> buf[at + m] == ToUpper(src[m])
      invariant forall m :: at + copied <= m < at + i ==> buf[m] == SPACE
      invariant buf[..at] == old(buf[..at]) && buf[at + i..] == old(buf[at + i..])
    {
      buf[at + i] := SPACE;
      i := i + 1;
    }
    assert forall m :: 0 <= m < width ==> buf[at + m] == Field(src, width)[m];
  }

  /** The extension half of to83Filename: finds the last '.' and fills
      the three extension bytes; the result is where the base ends. */
  method FillExtension(buf: array<byte>, name: seq<byte>) returns (base: nat)
    requires buf.Length == 11
    modifies buf
    ensures base == BaseLength(name)
    ensures buf[8..] == Field(Extension(name), 3)
    ensures buf[..8] == old(buf[..8])
  {
    var ext := FindLastDot(name);
    if ext < 0 {
      assert Extension(name) == [] && BaseLength(name) == |name|;
      FillField(buf, 8, [], 3);
      base := |name|;
    } else {
      assert Extension(name) == name[ext + 1..] && BaseLength(name) == ext;
      FillField(buf, 8, name[ext + 1..], 3);
      base := ext;
    }
  }

  /** to83Filename, writing the 11-byte field index by index: the extension
      first, then the base. */
  method To83Filename(name: seq<byte>) returns (out: seq<byte>)
    requires IsCString(name)
    ensures out == To83(name)
  {
    var buf := new byte[11];
    if |name| == 0 {
      FillField(buf, 0, [], 11);
      out := buf[..];
      assert Field([], 11) == Spaces(11);
      return;
    }
    var base := FillExtension(buf, name);
    ghost var extField := buf[8..];
    FillField(buf, 0, name[..base], 8);
    assert buf[8..] == extField;
    out := buf[..];
    assert out == buf[..8] + buf[8..];
  }

  /** The second half of from83Filename's buffer: the dot, the extension
      bytes before the first space and a NUL, or a NUL alone. */
  method WriteExtension(out: array<byte>, ext: seq<byte>)
    requires out.Length == 13 && |ext| == 3
    modifies out
    ensures UpToNul(out[8..]) == UpToNul(ExtTail(ext))
    ensures out[..8] == old(out[..8])
  {
    if ext[0] == SPACE {
      out[8] := 0;
      return;
    }
    out[8] := DOT;
    var i := 0;
    while i < 3 && ext[i] != SPACE
      invariant 0 <= i <= 3
      invariant forall m :: 0 <= m < i ==> ext[m] != SPACE && out[m + 9] == ext[m]
      invariant out[8] == DOT
      invariant out[..8] == old(out[..8])
    {
      out[9 + i] := ext[i];
      i := i + 1;
    }
    assert i == ExtLength(ext);
    out[9 + i] := 0;
    ghost var tail := ExtTail(ext);
    ghost var suffix := out[8..];
    assert forall m :: 0 <= m < |tail| ==> suffix[m] == tail[m];
    assert suffix[..|tail|] == tail;
    UpToNulPrefix(suffix, tail);
  }

  /** The backwards scan of from83Filename over the base for its last non-space byte. */
  method TrimBase(name11: seq<byte>) returns (n: nat)
    requires |name11| == 11
    ensures n == TrimmedLength(name11[..8])
  {
    var i := 7;
    while i >= 0 && name11[i] == SPACE
      invariant -1 <= i <= 7
      invariant forall m :: i < m < 8 ==> name11[m] == SPACE
    {
      i := i - 1;
    }
    n := i + 1;
    TrimmedLengthIs(name11[..8], n);
  }

  /** The copy loop of from83Filename: the `n` base bytes end just before
      the extension part at out[8]. */
  method CopyBase(out: array<byte>, name11: seq<byte>, n: nat)
    requires out.Length == 13 && |name11| == 11 && n <= 8
    modifies out
    ensures out[8 - n..8] == name11[..n]
    ensures out[8..] == old(out[8..])
  {
    var k := 0;
    while k < n
      invariant 0 <= k <= n
      invariant forall m :: 0 <= m < k ==> out[8 - n + m] == name11[m]
      invariant out[8..] == old(out[8..])
    {
      out[8 - n + k] := name11[k];
      k := k + 1;
    }
  }

  /** The string at out + 8 - n is the trimmed base followed by the extension part. */
  lemma From83Assembled(name11: seq<byte>, buf: seq<byte>, n: nat)
    requires |name11| == 11 && |buf| == 13 && n == TrimmedLength(name11[..8])
    requires buf[8 - n..8] == name11[..n]
    requires UpToNul(buf[8..]) == UpToNul(ExtTail(name11[8..]))
    ensures UpToNul(buf[8 - n..]) == From83(name11)
  {
    SliceSplit(buf, 8 - n, 8);
    UpToNulCongruent(name11[..n], buf[8..], ExtTail(name11[8..]));
  }

  lemma SliceSplit(a: seq<byte>, lo: nat, mid: nat)
    requires lo <= mid <= |a|
    ensures a[lo..] == a[lo..mid] + a[mid..]
  {
  }

  /** from83Filename: the result is the C string at `out + 8 - i` of its static 13-byte buffer. */
  method From83Filename(name11: seq<byte>) returns (r: seq<byte>)
    requires |name11| == 11
    ensures r == From83(name11)
  {
    var out := new byte[13];
    WriteExtension(out, name11[8..]);
    var i := TrimBase(name11);
    CopyBase(out, name11, i);
    From83Assembled(name11, out[..], i);
    assert out[..][8 - i..] == out[8 - i..];
    r := UpToNul(out[8 - i..]);
  }

  lemma {:induction false} UpToNulCongruent(b: seq<byte>, x: seq<byte>, y: seq<byte>)
    requires UpToNul(x) == UpToNul(y)
    ensures UpToNul(b + x) == UpToNul(b + y)
  {
    if b != [] && b[0] != 0 {
      assert (b + x)[1..] == b[1..] + x;
      assert (b + y)[1..] == b[1..] + y;
      UpToNulCongruent(b[1..], x, y);
      assert UpToNul(b + x) == [b[0]] + UpToNul(b[1..] + x);
      assert UpToNul(b + y) == [b[0]] + UpToNul(b[1..] + y);
    } else if b != [] {
      assert (b + x)[0] == 0 && (b + y)[0] == 0;
      assert UpToNul(b + x) == [] && UpToNul(b + y) == [];
    } else {
      assert b + x == x && b + y == y;
    }
  }

  lemma UpToNulPrefix(s: seq<byte>, t: seq<byte>)
    requires |t| < |s| && s[..|t|] == t && s[|t|] == 0
    ensures UpToNul(s) == UpToNul(t)
  {
    if t != [] && t[0] != 0 {
      UpToNulPrefix(s[1..], t[1..]);
    }
  }

  lemma TrimmedLengthIs(base: seq<byte>, n: nat)
    requires n <= |base|
    requires forall k :: n <= k < |base| ==> base[k] == SPACE
    requires n > 0 ==> base[n - 1] != SPACE
    ensures TrimmedLength(base) == n
  {
    if n < |base| {
      TrimmedLengthIs(base[..|base| - 1], n);
    }
  }
}
