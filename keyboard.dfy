// The HID keyboard of the composite device: the ASCII-to-usage table and
// the six-key rollover report that `press`, `release`, `releaseAll` and
// `write` maintain.  The report is the boot keyboard layout (Appendix B.1
// of the HID 1.11 specification): report ID, modifier bits, a reserved
// byte and six key slots holding Keyboard/Keypad page usages (section 10
// of the HID Usage Tables 1.12).
module Keyboard {
  import opened Prelude
  import opened Bits
  import HidDevice

  /** Marks a map entry that needs the shift key. */
  const SHIFT: byte := 0x80
  /** The left-shift bit of the modifier byte. */
  const LEFT_SHIFT: byte := 0x02
  const KEY_SLOTS: nat := 6
  /** `sizeof(KeyReport_t)`: report ID, modifiers, reserved, six keys. */
  const REPORT_SIZE: nat := 9
  const USB_HID_KEYBOARD_REPORT_ID: byte := 2

  // `_asciimap`, section by section.

  /** NUL to US: only backspace, tab and line feed can be typed. */
  const CONTROL_KEYS: seq<byte> := [
    0x00, 0x00, 0x00, 0x00, 0x00, 0x00, 0x00, 0x00,
    0x2a, 0x2b, 0x28, 0x00, 0x00, 0x00, 0x00, 0x00,
    0x00, 0x00, 0x00, 0x00, 0x00, 0x00, 0x00, 0x00,
    0x00, 0x00, 0x00, 0x00, 0x00, 0x00, 0x00, 0x00]

  /** Space to '@'. */
  const PUNCTUATION_AND_DIGITS: seq<byte> := [
    0x2c, 0x1e + SHIFT, 0x34 + SHIFT, 0x20 + SHIFT, 0x21 + SHIFT, 0x22 + SHIFT, 0x24 + SHIFT, 0x34,
    0x26 + SHIFT, 0x27 + SHIFT, 0x25 + SHIFT, 0x2e + SHIFT, 0x36, 0x2d, 0x37, 0x38,
    0x27, 0x1e, 0x1f, 0x20, 0x21, 0x22, 0x23, 0x24,
    0x25, 0x26, 0x33 + SHIFT, 0x33, 0x36 + SHIFT, 0x2e, 0x37 + SHIFT, 0x38 + SHIFT,
    0x1f + SHIFT]

  /** 'A' to 'Z'. */
  const UPPER_CASE: seq<byte> := [
    0x04 + SHIFT, 0x05 + SHIFT, 0x06 + SHIFT, 0x07 + SHIFT, 0x08 + SHIFT, 0x09 + SHIFT, 0x0a + SHIFT,
    0x0b + SHIFT, 0x0c + SHIFT, 0x0d + SHIFT, 0x0e + SHIFT, 0x0f + SHIFT, 0x10 + SHIFT, 0x11 + SHIFT,
    0x12 + SHIFT, 0x13 + SHIFT, 0x14 + SHIFT, 0x15 + SHIFT, 0x16 + SHIFT, 0x17 + SHIFT, 0x18 + SHIFT,
    0x19 + SHIFT, 0x1a + SHIFT, 0x1b + SHIFT, 0x1c + SHIFT, 0x1d + SHIFT]

  /** '[' to '`'. */
  const BRACKETS: seq<byte> := [0x2f, 0x31, 0x30, 0x23 + SHIFT, 0x2d + SHIFT, 0x35]

  /** 'a' to 'z'. */
  const LOWER_CASE: seq<byte> := [
    0x04, 0x05, 0x06, 0x07, 0x08, 0x09, 0x0a, 0x0b, 0x0c, 0x0d, 0x0e, 0x0f, 0x10,
    0x11, 0x12, 0x13, 0x14, 0x15, 0x16, 0x17, 0x18, 0x19, 0x1a, 0x1b, 0x1c, 0x1d]

  /** '{' to DEL. */
  const BRACES: seq<byte> := [0x2f + SHIFT, 0x31 + SHIFT, 0x30 + SHIFT, 0x35 + SHIFT, 0x00]

  /** `_asciimap`: the usage of each 7-bit character, `| SHIFT` when it needs shift, 0 when it cannot be typed. */
  const ASCII_MAP: seq<byte> := CONTROL_KEYS + PUNCTUATION_AND_DIGITS + UPPER_CASE + BRACKETS + LOWER_CASE + BRACES

  lemma AsciiMapSize()
    ensures |ASCII_MAP| == 128
  {
  }

  /** Which section of the table character `c` falls in. */
  lemma AsciiMapAt(c: nat)
    requires c < 128
    ensures ASCII_MAP[c] ==
      if c < 32 then CONTROL_KEYS[c]
      else if c < 65 then PUNCTUATION_AND_DIGITS[c - 32]
      else if c < 91 then UPPER_CASE[c - 65]
      else if c < 97 then BRACKETS[c - 91]
      else if c < 123 then LOWER_CASE[c - 97]
      else BRACES[c - 123]
  {
    AsciiMapSize();
    IndexSections(CONTROL_KEYS, PUNCTUATION_AND_DIGITS, UPPER_CASE, BRACKETS, LOWER_CASE, BRACES, c);
  }

  /** Indexing a sequence made of six sections. */
  lemma IndexSections(a: seq<byte>, b: seq<byte>, c: seq<byte>, d: seq<byte>, e: seq<byte>, f: seq<byte>, k: nat)
    requires k < |a + b + c + d + e + f|
    ensures (a + b + c + d + e + f)[k] ==
      if k < |a| then a[k]
      else if k < |a| + |b| then b[k - |a|]
      else if k < |a| + |b| + |c| then c[k - |a| - |b|]
      else if k < |a| + |b| + |c| + |d| then d[k - |a| - |b| - |c|]
      else if k < |a| + |b| + |c| + |d| + |e| then e[k - |a| - |b| - |c| - |d|]
      else f[k - |a| - |b| - |c| - |d| - |e|]
  {
  }

  /** Each capital letter's entry is the small letter's entry with the shift flag. */
  lemma LettersShifted()
    ensures |UPPER_CASE| == |LOWER_CASE| == 26
    ensures forall j :: 0 <= j < 26 ==> LOWER_CASE[j] < SHIFT && UPPER_CASE[j] == LOWER_CASE[j] + SHIFT
  {
  }

  /** Every capital letter is its small letter's key with shift. */
  lemma AsciiUpperCase(c: nat)
    requires 'A' as nat <= c <= 'Z' as nat
    ensures ASCII_MAP[c] == ASCII_MAP[c + 32] + SHIFT
    ensures ASCII_MAP[c + 32] < SHIFT
  {
    AsciiMapAt(c);
    AsciiMapAt(c + 32);
    LettersShifted();
  }

  /** '1' to '9' are usages 0x1E to 0x26 and '0' is 0x27. */
  lemma AsciiDigits(c: nat)
    requires '0' as nat <= c <= '9' as nat
    ensures ASCII_MAP[c] == if c == '0' as nat then 0x27 else c - '1' as nat + 0x1e
  {
    AsciiMapAt(c);
  }

  /** Of the control characters only BS, TAB and LF have keys; CR has none. */
  lemma AsciiControls(c: nat)
    requires c < 32
    ensures ASCII_MAP[c] == (if c == 8 then 0x2a else if c == 9 then 0x2b else if c == 10 then 0x28 else 0)
  {
    AsciiMapAt(c);
  }

  /** No entry of a section is 0. */
  predicate Typable(section: seq<byte>)
  {
    forall i :: 0 <= i < |section| ==> section[i] != 0
  }

  lemma PrintableSections()
    ensures Typable(PUNCTUATION_AND_DIGITS) && Typable(UPPER_CASE) && Typable(BRACKETS)
    ensures Typable(LOWER_CASE) && Typable(BRACES[..4]) && BRACES[4] == 0
  {
  }

  /** Every printable character can be typed; DEL cannot. */
  lemma AsciiPrintable(c: nat)
    requires ' ' as nat <= c < 128
    ensures ASCII_MAP[c] == 0 <==> c == 127
  {
    PrintableSections();
    AsciiMapAt(c);
    if c >= 123 && c < 127 {
      assert BRACES[c - 123] == BRACES[..4][c - 123];
    }
  }

  // The key report.

  /** The part of `KeyReport_t` that `press` and `release` change. */
  datatype KeyState = KeyState(modifiers: byte, keys: seq<byte>)

  /**
   * What `press` and `release` make of `k` before they look at the slots:
   * a raw usage (`k >= 136`), a modifier key with usage 0 (`128 <= k < 136`),
   * or the map entry with its shift flag turned into the left-shift
   * modifier; None for a character the map cannot type.
   */
  datatype Translation = Translation(usage: byte, mask: byte)

  function Translate(k: byte): (t: Option<Translation>)
    ensures t.None? <==> k < 128 && ASCII_MAP[k] == 0
    ensures t.Some? && k < 136 ==> t.value.usage < SHIFT
  {
    if k >= 136 then Some(Translation(k - 136, 0))
    else if k >= 128 then
      Pow2Mono(k - 128, 7);
      assert Pow2(8) == 2 * Pow2(7) && Pow2(8) == 0x100 by { Pow2Widths(); }
      Some(Translation(0, Pow2(k - 128)))
    else
      var e := ASCII_MAP[k];
      if e == 0 then None
      else if e >= SHIFT then Some(Translation(e - SHIFT, LEFT_SHIFT))
      else Some(Translation(e, 0))
  }

  /** `modifiers |= mask`: the modifiers held before and those of `mask`. */
  function SetModifiers(m: byte, mask: byte): (r: byte)
    ensures forall j: nat :: Bit(r, j) <==> Bit(m, j) || Bit(mask, j)
  {
    Pow2Widths();
    OrWidth(m, mask, 8);
    OrBits(m, mask);
    Or(m, mask)
  }

  /** `modifiers &= ~mask`: the modifiers held before that are not in `mask`. */
  function ClearModifiers(m: byte, mask: byte): (r: byte)
    ensures forall j: nat :: Bit(r, j) <==> Bit(m, j) && !Bit(mask, j)
  {
    AndNotWidth(m, mask);
    AndNotBits(m, mask);
    AndNot(m, mask)
  }

  /** The first empty slot, as the `for` loop of `press` finds it. */
  function FirstFree(keys: seq<byte>): (i: Option<nat>)
    ensures i.None? <==> 0 !in keys
    ensures i.Some? ==> i.value < |keys| && keys[i.value] == 0 && 0 !in keys[..i.value]
  {
    if |keys| == 0 then None
    else if keys[0] == 0 then Some(0)
    else
      assert keys == [keys[0]] + keys[1..];
      match FirstFree(keys[1..])
      case None => None
      case Some(j) =>
        assert keys[..j + 1] == [keys[0]] + keys[1..][..j];
        Some(j + 1)
  }

  /** `keys[i] = 0` for every slot holding the non-zero usage `u`. */
  function Without(keys: seq<byte>, u: byte): (r: seq<byte>)
    ensures |r| == |keys|
    ensures u == 0 ==> r == keys
    ensures u != 0 ==> u !in r && forall i :: 0 <= i < |keys| && keys[i] == u ==> r[i] == 0
    ensures forall i :: 0 <= i < |keys| && keys[i] != u ==> r[i] == keys[i]
  {
    seq(|keys|, i requires 0 <= i < |keys| => if u != 0 && keys[i] == u then 0 else keys[i])
  }

  /** What a call returns, the report it leaves, and whether it sent that report. */
  datatype Outcome = Outcome(result: nat, state: KeyState, sends: bool)

  /** `press(k)`. */
  function PressKey(s: KeyState, k: byte): (o: Outcome)
    requires |s.keys| == KEY_SLOTS
    ensures |o.state.keys| == KEY_SLOTS
  {
    PressTranslated(s, Translate(k))
  }

  /** The slot step of `press`, once `k` has been translated. */
  function PressTranslated(s: KeyState, tr: Option<Translation>): (o: Outcome)
    requires |s.keys| == KEY_SLOTS
    ensures |o.state.keys| == KEY_SLOTS
  {
    match tr
    case None => Outcome(0, s, false)
    case Some(t) =>
      var m := SetModifiers(s.modifiers, t.mask);
      if t.usage in s.keys then Outcome(1, KeyState(m, s.keys), true)
      else
        match FirstFree(s.keys)
        case None => Outcome(0, KeyState(m, s.keys), false)
        case Some(i) => Outcome(1, KeyState(m, s.keys[i := t.usage]), true)
  }

  /** `release(k)`. */
  function ReleaseKey(s: KeyState, k: byte): (o: Outcome)
    requires |s.keys| == KEY_SLOTS
    ensures |o.state.keys| == KEY_SLOTS
  {
    ReleaseTranslated(s, Translate(k))
  }

  /** The slot step of `release`, once `k` has been translated. */
  function ReleaseTranslated(s: KeyState, tr: Option<Translation>): (o: Outcome)
    requires |s.keys| == KEY_SLOTS
    ensures |o.state.keys| == KEY_SLOTS
  {
    match tr
    case None => Outcome(0, s, false)
    case Some(t) => Outcome(1, KeyState(ClearModifiers(s.modifiers, t.mask), Without(s.keys, t.usage)), true)
  }

  /** No usage other than 0 occupies two slots. */
  predicate Distinct(keys: seq<byte>)
  {
    forall i, j :: 0 <= i < j < |keys| && keys[i] != 0 ==> keys[i] != keys[j]
  }

  /**
   * `press(k)` returns 1 and sends exactly when `k` can be typed and its
   * usage is already held or a slot is free; then the usage is held.  It
   * never displaces a held key, fills at most one slot, and keeps the slots
   * free of duplicates.  An untypable character changes nothing.
   */
  lemma PressKeyHolds(s: KeyState, k: byte)
    requires |s.keys| == KEY_SLOTS
    ensures var o := PressKey(s, k);
      && (o.result == 1 <==> o.sends)
      && (o.result == 1 <==> Translate(k).Some? && (Translate(k).value.usage in s.keys || 0 in s.keys))
      && (o.result == 1 ==> Translate(k).value.usage in o.state.keys)
      && (Translate(k).None? ==> o.state == s)
      && (forall j :: 0 <= j < KEY_SLOTS && s.keys[j] != 0 ==> o.state.keys[j] == s.keys[j])
      && (forall i, j :: 0 <= i < j < KEY_SLOTS && o.state.keys[i] != s.keys[i] ==> o.state.keys[j] == s.keys[j])
      && (Distinct(s.keys) ==> Distinct(o.state.keys))
  {
    match Translate(k)
    case None =>
    case Some(t) =>
      if t.usage !in s.keys {
        match FirstFree(s.keys)
        case None =>
        case Some(i) =>
          assert s.keys[i := t.usage][i] == t.usage;
      }
  }

  /**
   * The modifier byte after `press`: a modifier key sets its own bit, a
   * shifted character sets left shift, and every other bit is kept.
   */
  lemma PressKeyModifiers(s: KeyState, k: byte, j: nat)
    requires |s.keys| == KEY_SLOTS && Translate(k).Some?
    ensures 128 <= k < 136 ==> (Bit(PressKey(s, k).state.modifiers, j) <==> j == k - 128 || Bit(s.modifiers, j))
    ensures k < 128 && ASCII_MAP[k] >= SHIFT ==> (Bit(PressKey(s, k).state.modifiers, j) <==> j == 1 || Bit(s.modifiers, j))
    ensures (k >= 136 || (k < 128 && ASCII_MAP[k] < SHIFT)) ==> PressKey(s, k).state.modifiers == s.modifiers
  {
    if 128 <= k < 136 {
      SetClearBit(s.modifiers, k - 128, j);
    } else if k < 128 && ASCII_MAP[k] >= SHIFT {
      assert LEFT_SHIFT == Pow2(1);
      SetClearBit(s.modifiers, 1, j);
    } else {
      OrAndNotZero(s.modifiers);
    }
  }

  /**
   * `release(k)` returns 1 and sends for every typable `k`; afterwards no
   * slot holds its (non-zero) usage, every other slot is unchanged, and
   * the slots stay free of duplicates.
   */
  lemma ReleaseKeyFrees(s: KeyState, k: byte)
    requires |s.keys| == KEY_SLOTS
    ensures var o := ReleaseKey(s, k);
      && (o.result == 1 <==> o.sends)
      && (o.result == 1 <==> Translate(k).Some?)
      && (Translate(k).None? ==> o.state == s)
      && (Translate(k).Some? && Translate(k).value.usage != 0 ==> Translate(k).value.usage !in o.state.keys)
      && (Translate(k).Some? ==> forall i :: 0 <= i < KEY_SLOTS && s.keys[i] != Translate(k).value.usage ==> o.state.keys[i] == s.keys[i])
      && (Distinct(s.keys) ==> Distinct(o.state.keys))
  {
  }

  /**
   * The modifier byte after `release`: a modifier key clears its own bit,
   * a shifted character clears left shift, and every other bit is kept.
   */
  lemma ReleaseKeyModifiers(s: KeyState, k: byte, j: nat)
    requires |s.keys| == KEY_SLOTS && Translate(k).Some?
    ensures 128 <= k < 136 ==> (Bit(ReleaseKey(s, k).state.modifiers, j) <==> j != k - 128 && Bit(s.modifiers, j))
    ensures k < 128 && ASCII_MAP[k] >= SHIFT ==> (Bit(ReleaseKey(s, k).state.modifiers, j) <==> j != 1 && Bit(s.modifiers, j))
    ensures (k >= 136 || (k < 128 && ASCII_MAP[k] < SHIFT)) ==> ReleaseKey(s, k).state.modifiers == s.modifiers
  {
    if 128 <= k < 136 {
      SetClearBit(s.modifiers, k - 128, j);
    } else if k < 128 && ASCII_MAP[k] >= SHIFT {
      assert LEFT_SHIFT == Pow2(1);
      SetClearBit(s.modifiers, 1, j);
    } else {
      OrAndNotZero(s.modifiers);
    }
  }

  /** Pressing a key that is already down changes nothing more. */
  lemma PressKeyIdempotent(s: KeyState, k: byte)
    requires |s.keys| == KEY_SLOTS
    ensures PressKey(PressKey(s, k).state, k).state == PressKey(s, k).state
  {
    match Translate(k)
    case None =>
    case Some(t) =>
      OrAbsorb(s.modifiers, t.mask);
      var m := SetModifiers(s.modifiers, t.mask);
      assert SetModifiers(m, t.mask) == m;
      if t.usage in s.keys {
        assert PressKey(s, k).state == KeyState(m, s.keys);
      } else {
        match FirstFree(s.keys)
        case None =>
          assert PressKey(s, k).state == KeyState(m, s.keys);
        case Some(i) =>
          var keys := s.keys[i := t.usage];
          assert keys[i] == t.usage;
          assert PressKey(s, k).state == KeyState(m, keys);
          assert PressKey(KeyState(m, keys), k).state == KeyState(m, keys);
      }
  }

  /**
   * `write(k)` types a key and lets it go: when the usage was not held, a
   * slot was free and the modifier bits it uses were clear, the report
   * afterwards is the report before.
   */
  lemma WriteRestores(s: KeyState, k: byte)
    requires |s.keys| == KEY_SLOTS && Translate(k).Some? && 0 in s.keys
    requires Translate(k).value.usage != 0 ==> Translate(k).value.usage !in s.keys
    requires And(s.modifiers, Translate(k).value.mask) == 0
    ensures PressKey(s, k).result == 1
    ensures ReleaseKey(PressKey(s, k).state, k).state == s
  {
    var t := Translate(k).value;
    ClearAfterSet(s.modifiers, t.mask);
    var after := PressKey(s, k).state;
    assert Without(after.keys, t.usage) == s.keys;
  }

  /**
   * `HIDKeyboard`: the `KeyReport_t` memory, its reporter and the reports
   * handed to `sendReport` (whose queueing is `HidDevice.Reporter.SendReport`).
   */
  class HidKeyboard {
    const keyReport: array<byte>
    const reporter: HidDevice.Reporter
    var sent: seq<seq<byte>>

    ghost predicate Valid()
      reads this, reporter
    {
      keyReport.Length == REPORT_SIZE && reporter.storage == keyReport && reporter.Valid()
      && reporter.start == (if reporter.reportID == 0 then 1 else 0)
    }

    function State(): (s: KeyState)
      requires Valid()
      reads this, reporter, keyReport
      ensures |s.keys| == KEY_SLOTS
    {
      KeyState(keyReport[1], keyReport[3..])
    }

    /** The bytes `sendReport` transmits when the report holds `s`. */
    function Wire(s: KeyState): (w: seq<byte>)
      requires Valid() && |s.keys| == KEY_SLOTS
      reads this, reporter, keyReport
    {
      HidDevice.ReportView([keyReport[0], s.modifiers, keyReport[2]] + s.keys, reporter.reportID)
    }

    /** The reports a call with outcome `o` hands to `sendReport`. */
    function Sends(o: Outcome): seq<seq<byte>>
      requires Valid() && |o.state.keys| == KEY_SLOTS
      reads this, reporter, keyReport
    {
      if o.sends then [Wire(o.state)] else []
    }

    /** `HIDKeyboard(reportID)`: an empty report, nothing sent. */
    constructor (reportID: byte)
      ensures Valid() && fresh(keyReport) && fresh(reporter) && reporter.reportID == reportID
      ensures State() == KeyState(0, [0, 0, 0, 0, 0, 0]) && sent == []
      ensures reportID != 0 ==> keyReport[0] == reportID
      ensures keyReport[2] == 0
    {
      var buf := new byte[REPORT_SIZE];
      var r := new HidDevice.Reporter(buf, reportID);
      keyReport := buf;
      reporter := r;
      sent := [];
    }

    /** The report goes to `sendReport`. */
    method SendReport()
      requires Valid()
      modifies this
      ensures sent == old(sent) + [Wire(State())]
    {
      WireIsReport();
      sent := sent + [reporter.Report()];
    }

    lemma WireIsReport()
      requires Valid()
      ensures Wire(State()) == reporter.Report()
    {
      assert keyReport[..] == [keyReport[0], keyReport[1], keyReport[2]] + keyReport[3..];
    }

    /**
     * The translation step `press` and `release` share: the modifier byte
     * updated (bits set when `down`, cleared otherwise) and the usage
     * returned; an untypable character leaves the report alone.
     */
    method Modify(k: byte, down: bool, ghost tr: Option<Translation>) returns (u: byte, typable: bool)
      requires Valid() && tr == Translate(k)
      modifies keyReport
      ensures typable <==> tr.Some?
      ensures !typable ==> keyReport[..] == old(keyReport[..])
      ensures typable ==> var t := tr.value;
        && u == t.usage
        && keyReport[..] == old(keyReport[..])[1 := if down then SetModifiers(old(keyReport[1]), t.mask) else ClearModifiers(old(keyReport[1]), t.mask)]
    {
      typable := true;
      if k >= 136 {
        u := k - 136;
        OrAndNotZero(keyReport[1]);
      } else if k >= 128 {
        var mask := Translate(k).value.mask;
        keyReport[1] := if down then SetModifiers(keyReport[1], mask) else ClearModifiers(keyReport[1], mask);
        u := 0;
      } else {
        var e := ASCII_MAP[k];
        if e == 0 {
          return 0, false;
        }
        if e >= SHIFT {
          keyReport[1] := if down then SetModifiers(keyReport[1], LEFT_SHIFT) else ClearModifiers(keyReport[1], LEFT_SHIFT);
          u := e - SHIFT;
        } else {
          OrAndNotZero(keyReport[1]);
          u := e;
        }
      }
    }

    /** `press(k)`. */
    method Press(k: byte) returns (result: nat)
      requires Valid()
      modifies this, keyReport
      ensures Valid() && keyReport[0] == old(keyReport[0]) && keyReport[2] == old(keyReport[2])
      ensures var o := PressKey(old(State()), k);
        result == o.result && State() == o.state && sent == old(sent) + Sends(o)
    {
      ghost var s := State();
      ghost var tr := Translate(k);
      var u, typable := Modify(k, true, tr);
      if !typable {
        return 0;
      }
      ghost var m := keyReport[1];
      ghost var keys := s.keys;
      assert m == SetModifiers(s.modifiers, tr.value.mask) && u == tr.value.usage;
      assert keyReport[3..] == keys;
      if keyReport[3] != u && keyReport[4] != u && keyReport[5] != u
        && keyReport[6] != u && keyReport[7] != u && keyReport[8] != u
      {
        AbsentFromSlots(keys, u);
        var i := Place(u);
        if i == KEY_SLOTS {
          assert PressTranslated(s, tr) == Outcome(0, KeyState(m, keys), false);
          return 0;
        }
        keys := keys[i := u];
        assert keyReport[3..] == keys;
      }
      assert PressTranslated(s, tr) == Outcome(1, KeyState(m, keys), true);
      SendReport();
      return 1;
    }

    /** A usage in none of the six slots is not in the key array. */
    static lemma AbsentFromSlots(keys: seq<byte>, u: byte)
      requires |keys| == KEY_SLOTS
      requires keys[0] != u && keys[1] != u && keys[2] != u && keys[3] != u && keys[4] != u && keys[5] != u
      ensures u !in keys
    {
    }

    /** The slot loop of `press`: `u` goes into the first empty slot; `KEY_SLOTS` when there is none. */
    method Place(u: byte) returns (i: nat)
      requires Valid()
      modifies keyReport
      ensures match FirstFree(old(keyReport[3..]))
        case None => i == KEY_SLOTS && keyReport[..] == old(keyReport[..])
        case Some(j) => i == j && keyReport[..] == old(keyReport[..])[3 + j := u]
    {
      ghost var keys := keyReport[3..];
      i := 0;
      while i < KEY_SLOTS
        invariant 0 <= i <= KEY_SLOTS
        invariant keyReport[..] == old(keyReport[..])
        invariant 0 !in keys[..i]
      {
        assert keys[..i + 1] == keys[..i] + [keyReport[3 + i]];
        if keyReport[3 + i] == 0 {
          keyReport[3 + i] := u;
          FirstFreeAt(keys, i);
          return;
        }
        i := i + 1;
      }
      assert keys[..i] == keys;
    }

    /** `release(k)`. */
    method Release(k: byte) returns (result: nat)
      requires Valid()
      modifies this, keyReport
      ensures Valid() && keyReport[0] == old(keyReport[0]) && keyReport[2] == old(keyReport[2])
      ensures var o := ReleaseKey(old(State()), k);
        result == o.result && State() == o.state && sent == old(sent) + Sends(o)
    {
      ghost var s := State();
      ghost var tr := Translate(k);
      var u, typable := Modify(k, false, tr);
      if !typable {
        return 0;
      }
      ghost var m := keyReport[1];
      assert m == ClearModifiers(s.modifiers, tr.value.mask) && u == tr.value.usage;
      assert keyReport[3..] == s.keys;
      Unplace(u);
      assert ReleaseTranslated(s, tr) == Outcome(1, KeyState(m, Without(s.keys, u)), true);
      SendReport();
      return 1;
    }

    /** The slot loop of `release`: every slot holding the non-zero usage `u` emptied. */
    method Unplace(u: byte)
      requires Valid()
      modifies keyReport
      ensures keyReport[..] == old(keyReport[..3]) + Without(old(keyReport[3..]), u)
    {
      ghost var keys := keyReport[3..];
      for i := 0 to KEY_SLOTS
        invariant keyReport[..3] == old(keyReport[..3])
        invariant forall j :: 0 <= j < i ==> keyReport[3 + j] == Without(keys, u)[j]
        invariant forall j :: i <= j < KEY_SLOTS ==> keyReport[3 + j] == keys[j]
      {
        if 0 != u && keyReport[3 + i] == u {
          keyReport[3 + i] := 0;
        }
      }
      assert keyReport[3..] == Without(keys, u);
      assert keyReport[..] == keyReport[..3] + keyReport[3..];
    }

    /** `releaseAll()`: every slot and the modifiers cleared, and the report sent. */
    method ReleaseAll()
      requires Valid()
      modifies this, keyReport
      ensures Valid() && keyReport[0] == old(keyReport[0]) && keyReport[2] == old(keyReport[2])
      ensures State() == KeyState(0, [0, 0, 0, 0, 0, 0])
      ensures sent == old(sent) + [Wire(State())]
    {
      keyReport[3], keyReport[4], keyReport[5], keyReport[6], keyReport[7], keyReport[8] := 0, 0, 0, 0, 0, 0;
      keyReport[1] := 0;
      SendReport();
    }

    /** `write(k)`: `press(k)` then `release(k)`, returning what `press` returned. */
    method Write(k: byte) returns (p: nat)
      requires Valid()
      modifies this, keyReport
      ensures Valid() && keyReport[0] == old(keyReport[0]) && keyReport[2] == old(keyReport[2])
      ensures var down := PressKey(old(State()), k);
        var up := ReleaseKey(down.state, k);
        p == down.result && State() == up.state && sent == old(sent) + Sends(down) + Sends(up)
    {
      p := Press(k);
      var _ := Release(k);
    }
  }

  /** The slot the `press` loop stops at is the first free one. */
  lemma FirstFreeAt(keys: seq<byte>, i: nat)
    requires i < |keys| && keys[i] == 0 && 0 !in keys[..i]
    ensures FirstFree(keys) == Some(i)
  {
  }
}
