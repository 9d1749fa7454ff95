// The `USBComposite` device object: vendor and product IDs, the
// manufacturer, product and serial string descriptors, and the bounded
// registries of parts and plugins that `begin` hands to the composite
// setup.
module UsbDevice {
  import opened Prelude
  import opened UsbCore
  import opened UsbStrings
  import opened UsbGeneric

  const DEFAULT_VENDOR_ID: uint16 := 0x1EAF
  const DEFAULT_PRODUCT_ID: uint16 := 0x0004
  const USB_MAX_PRODUCT_LENGTH: nat := 32
  const USB_MAX_MANUFACTURER_LENGTH: nat := 32
  const USB_MAX_SERIAL_NUMBER_LENGTH: nat := 20
  const USB_COMPOSITE_MAX_PARTS: nat := 6
  const USB_COMPOSITE_MAX_PLUGINS: nat := 6

  /** A plugin (a device class object) that registers its parts with the device. */
  datatype Plugin = Plugin(id: nat)

  /** `setVendorId`: 0 asks for the default vendor ID; the stored ID is never 0. */
  function VendorIdFor(v: uint16): (r: uint16)
    ensures r != 0
    ensures v != 0 ==> r == v
    ensures v == 0 ==> r == DEFAULT_VENDOR_ID
  {
    if v != 0 then v else DEFAULT_VENDOR_ID
  }

  /** `setProductId` as intended: 0 asks for the default product ID; the stored ID is never 0. */
  function ProductIdFor(p: uint16): (r: uint16)
    ensures r != 0
    ensures p != 0 ==> r == p
    ensures p == 0 ==> r == DEFAULT_PRODUCT_ID
  {
    if p != 0 then p else DEFAULT_PRODUCT_ID
  }

  /**
   * `setProductId` as written: its condition reads `_vendorId`, a name declared
   * nowhere in the device's code, instead of its own argument. `vendorIdSeen` is
   * whatever value that name denotes.
   */
  function ProductIdAsWritten(vendorIdSeen: uint16, p: uint16): (r: uint16)
    ensures vendorIdSeen != 0 ==> r == p
    ensures vendorIdSeen == 0 ==> r == DEFAULT_PRODUCT_ID
  {
    if vendorIdSeen != 0 then p else DEFAULT_PRODUCT_ID
  }

  /** A non-zero `_vendorId` lets a 0 product ID through, which the intended setter never stores. */
  lemma ProductIdZeroStored(vendorIdSeen: uint16)
    requires vendorIdSeen != 0
    ensures ProductIdAsWritten(vendorIdSeen, 0) == 0 && ProductIdFor(0) == DEFAULT_PRODUCT_ID
  {
  }

  /** The bytes of the default descriptor the NULL branch copies: its own length, capped by the buffer. */
  function DefaultLength(bLength: byte, maxLength: nat): (n: byte)
    ensures n <= bLength && n <= U8(StringLen(maxLength))
    ensures n == bLength || n == U8(StringLen(maxLength))
  {
    var m := U8(StringLen(maxLength));
    if bLength > m then m else bLength
  }

  /** The characters of `s` a string descriptor keeps: at most `maxLength`. */
  function CharCount(s: seq<byte>, maxLength: nat): (n: nat)
    ensures n <= |s| && n <= maxLength
    ensures n == |s| || n == maxLength
  {
    if |s| > maxLength then maxLength else |s|
  }

  /** The default descriptor's first `n` bytes with `n` as the length byte. */
  function CopiedDefault(dflt: seq<byte>, n: byte): (r: seq<byte>)
    requires 1 <= |dflt| && n <= |dflt|
  {
    if n == 0 then [0] else [n] + dflt[1..n]
  }

  /**
   * A copied default of at least two bytes is a well-formed descriptor, and
   * a well-formed default that fits is copied whole.
   */
  lemma CopiedDefaultWellFormed(dflt: seq<byte>, maxLength: nat)
    requires 2 <= |dflt| && dflt[0] <= |dflt| && dflt[1] == STRING_DESCRIPTOR
    ensures var n := DefaultLength(dflt[0], maxLength);
      2 <= n ==> WellFormed(CopiedDefault(dflt, n))
    ensures WellFormed(dflt) && dflt[0] <= U8(StringLen(maxLength)) ==> CopiedDefault(dflt, DefaultLength(dflt[0], maxLength)) == dflt
  {
    var n := DefaultLength(dflt[0], maxLength);
    if WellFormed(dflt) && dflt[0] <= U8(StringLen(maxLength)) {
      assert n == |dflt|;
      assert dflt == [dflt[0]] + dflt[1..];
    }
  }

  /**
   * The NULL branch of `setString`: the default descriptor's bytes, as many
   * as it claims to hold but no more than the buffer's descriptor size,
   * with the copied count as the length byte.
   */
  method CopyDefault(out: array<byte>, dflt: seq<byte>, maxLength: nat)
    requires 2 <= out.Length && StringLen(maxLength) <= out.Length
    requires 1 <= |dflt| && dflt[0] <= |dflt|
    modifies out
    ensures var n := DefaultLength(dflt[0], maxLength);
      out[..if n == 0 then 1 else n] == CopiedDefault(dflt, n)
      && out[if n == 0 then 1 else n..] == old(out[if n == 0 then 1 else n..])
  {
    var n := DefaultLength(dflt[0], maxLength);
    forall k | 0 <= k < n {
      out[k] := dflt[k];
    }
    out[0] := n;
    if n > 0 {
      assert out[..n] == [n] + dflt[1..n];
    }
  }

  /** The string branch of `setString` as written: the length byte is the character count. */
  method WriteStringAsWritten(out: array<byte>, s: seq<byte>, maxLength: nat)
    requires StringLen(maxLength) <= out.Length
    modifies out
    ensures var n := CharCount(s, maxLength);
      out[..StringLen(n)] == StringBytes(U8(n), s[..n]) && out[StringLen(n)..] == old(out[StringLen(n)..])
  {
    var n := CharCount(s, maxLength);
    out[0] := U8(n);
    out[1] := STRING_DESCRIPTOR;
    ghost var header := out[..2];
    WriteChars(out, s, n);
    assert out[..StringLen(n)] == header + out[2..StringLen(n)];
  }

  /**
   * The string branch of `setString` as intended, as `generateUSBDescriptor`
   * of the HID device writes it: the length byte is the descriptor's size.
   */
  method WriteString(out: array<byte>, s: seq<byte>, maxLength: nat)
    requires StringLen(maxLength) <= out.Length
    modifies out
    ensures var n := CharCount(s, maxLength);
      out[..StringLen(n)] == StringBytes(U8(StringLen(n)), s[..n]) && out[StringLen(n)..] == old(out[StringLen(n)..])
  {
    var n := CharCount(s, maxLength);
    out[0] := U8(StringLen(n));
    out[1] := STRING_DESCRIPTOR;
    ghost var header := out[..2];
    WriteChars(out, s, n);
    assert out[..StringLen(n)] == header + out[2..StringLen(n)];
  }

  /** `setString` as written; `None` is the NULL string. */
  method SetStringAsWritten(out: array<byte>, dflt: seq<byte>, s: Option<seq<byte>>, maxLength: uint32)
    requires 2 <= out.Length && StringLen(maxLength) <= out.Length
    requires s.None? ==> 1 <= |dflt| && dflt[0] <= |dflt|
    modifies out
    ensures s.None? ==> var n := DefaultLength(dflt[0], maxLength);
      out[..if n == 0 then 1 else n] == CopiedDefault(dflt, n)
    ensures s.Some? ==> var n := CharCount(s.value, maxLength);
      out[..StringLen(n)] == StringBytes(U8(n), s.value[..n]) && out[StringLen(n)..] == old(out[StringLen(n)..])
  {
    if s.None? {
      CopyDefault(out, dflt, maxLength);
    } else {
      WriteStringAsWritten(out, s.value, maxLength);
    }
  }

  /** `setString` with the intended length byte. */
  method SetString(out: array<byte>, dflt: seq<byte>, s: Option<seq<byte>>, maxLength: uint32)
    requires 2 <= out.Length && StringLen(maxLength) <= out.Length
    requires s.None? ==> 1 <= |dflt| && dflt[0] <= |dflt|
    modifies out
    ensures s.None? ==> var n := DefaultLength(dflt[0], maxLength);
      out[..if n == 0 then 1 else n] == CopiedDefault(dflt, n)
    ensures s.Some? ==> var n := CharCount(s.value, maxLength);
      out[..StringLen(n)] == StringBytes(U8(StringLen(n)), s.value[..n]) && out[StringLen(n)..] == old(out[StringLen(n)..])
  {
    if s.None? {
      CopyDefault(out, dflt, maxLength);
    } else {
      WriteString(out, s.value, maxLength);
    }
  }

  /**
   * A descriptor `setString` writes from a string of at most 126 kept
   * characters is well formed and carries those characters; as written, it
   * never is.
   */
  lemma SetStringDescriptor(s: seq<byte>, maxLength: nat)
    requires CharCount(s, maxLength) <= 126
    ensures var n := CharCount(s, maxLength);
      WellFormed(StringBytes(U8(StringLen(n)), s[..n])) && Text(StringBytes(U8(StringLen(n)), s[..n])) == s[..n]
      && !WellFormed(StringBytes(U8(n), s[..n]))
  {
    var n := CharCount(s, maxLength);
    StringLenHeader(s[..n]);
    TextOfStringBytes(U8(StringLen(n)), s[..n]);
    CharCountHeader(s[..n]);
  }

  /** The two-character string "ab" written as written: a length byte of 2 for six bytes. */
  lemma SetStringCountExample()
    ensures StringBytes(U8(CharCount([0x61, 0x62], USB_MAX_PRODUCT_LENGTH)), [0x61, 0x62]) == [2, STRING_DESCRIPTOR, 0x61, 0, 0x62, 0]
  {
    assert Utf16([0x61]) == [0x61, 0];
    assert Utf16([0x61, 0x62]) == Utf16([0x61]) + [0x62, 0];
  }

  class CompositeDevice {
    var enabled: bool
    var haveSerialNumber: bool
    const iManufacturer: array<byte>
    const iProduct: array<byte>
    const iSerialNumber: array<byte>
    var vendorId: uint16
    var productId: uint16
    /** The registries: the first `numParts` and `numPlugins` entries are in use. */
    const parts: array<Part>
    const plugins: array<Plugin>
    var numParts: nat
    var numPlugins: nat

    ghost predicate Valid()
      reads this
    {
      iManufacturer.Length == StringLen(USB_MAX_MANUFACTURER_LENGTH)
      && iProduct.Length == StringLen(USB_MAX_PRODUCT_LENGTH)
      && iSerialNumber.Length == StringLen(USB_MAX_SERIAL_NUMBER_LENGTH)
      && iManufacturer != iProduct && iManufacturer != iSerialNumber && iProduct != iSerialNumber
      && parts.Length == USB_COMPOSITE_MAX_PARTS && plugins.Length == USB_COMPOSITE_MAX_PLUGINS
      && numParts <= USB_COMPOSITE_MAX_PARTS && numPlugins <= USB_COMPOSITE_MAX_PLUGINS
    }

    /** The registered parts, in registration order. */
    ghost function Parts(): seq<Part>
      requires Valid()
      reads this, parts
    {
      parts[..numParts]
    }

    /** The registered plugins, in registration order. */
    ghost function Plugins(): seq<Plugin>
      requires Valid()
      reads this, plugins
    {
      plugins[..numPlugins]
    }

    constructor()
      ensures Valid() && fresh(parts) && fresh(plugins)
      ensures !enabled && !haveSerialNumber && Parts() == [] && Plugins() == []
    {
      enabled := false;
      haveSerialNumber := false;
      iManufacturer := new byte[StringLen(USB_MAX_MANUFACTURER_LENGTH)];
      iProduct := new byte[StringLen(USB_MAX_PRODUCT_LENGTH)];
      iSerialNumber := new byte[StringLen(USB_MAX_SERIAL_NUMBER_LENGTH)];
      vendorId := DEFAULT_VENDOR_ID;
      productId := DEFAULT_PRODUCT_ID;
      parts := new Part[USB_COMPOSITE_MAX_PARTS](_ => Part(0, 0, [], []));
      plugins := new Plugin[USB_COMPOSITE_MAX_PLUGINS](_ => Plugin(0));
      numParts := 0;
      numPlugins := 0;
    }

    method SetVendorId(v: uint16)
      modifies this
      ensures vendorId == VendorIdFor(v)
      ensures productId == old(productId) && enabled == old(enabled) && numParts == old(numParts) && numPlugins == old(numPlugins)
    {
      vendorId := VendorIdFor(v);
    }

    /** `setProductId` as written, with `vendorIdSeen` the value the undeclared `_vendorId` denotes. */
    method SetProductIdAsWritten(p: uint16, vendorIdSeen: uint16)
      modifies this
      ensures productId == ProductIdAsWritten(vendorIdSeen, p)
      ensures vendorId == old(vendorId) && enabled == old(enabled) && numParts == old(numParts) && numPlugins == old(numPlugins)
    {
      productId := ProductIdAsWritten(vendorIdSeen, p);
    }

    method SetProductId(p: uint16)
      modifies this
      ensures productId == ProductIdFor(p)
      ensures vendorId == old(vendorId) && enabled == old(enabled) && numParts == old(numParts) && numPlugins == old(numPlugins)
    {
      productId := ProductIdFor(p);
    }

    /** `setManufacturerString`, `dflt` being the generic layer's default manufacturer descriptor. */
    method SetManufacturerString(s: Option<seq<byte>>, dflt: seq<byte>)
      requires Valid()
      requires s.None? ==> 1 <= |dflt| && dflt[0] <= |dflt|
      modifies iManufacturer
      ensures s.None? ==> var n := DefaultLength(dflt[0], USB_MAX_MANUFACTURER_LENGTH);
        iManufacturer[..if n == 0 then 1 else n] == CopiedDefault(dflt, n)
      ensures s.Some? ==> var n := CharCount(s.value, USB_MAX_MANUFACTURER_LENGTH);
        iManufacturer[..StringLen(n)] == StringBytes(U8(StringLen(n)), s.value[..n])
    {
      SetString(iManufacturer, dflt, s, USB_MAX_MANUFACTURER_LENGTH);
    }

    /** `setProductString`, `dflt` being the generic layer's default product descriptor. */
    method SetProductString(s: Option<seq<byte>>, dflt: seq<byte>)
      requires Valid()
      requires s.None? ==> 1 <= |dflt| && dflt[0] <= |dflt|
      modifies iProduct
      ensures s.None? ==> var n := DefaultLength(dflt[0], USB_MAX_PRODUCT_LENGTH);
        iProduct[..if n == 0 then 1 else n] == CopiedDefault(dflt, n)
      ensures s.Some? ==> var n := CharCount(s.value, USB_MAX_PRODUCT_LENGTH);
        iProduct[..StringLen(n)] == StringBytes(U8(StringLen(n)), s.value[..n])
    {
      SetString(iProduct, dflt, s, USB_MAX_PRODUCT_LENGTH);
    }

    /** `setSerialString`: NULL drops the serial number; a string is written into its descriptor. */
    method SetSerialString(s: Option<seq<byte>>)
      requires Valid()
      modifies this, iSerialNumber
      ensures haveSerialNumber <==> s.Some?
      ensures s.Some? ==> var n := CharCount(s.value, USB_MAX_SERIAL_NUMBER_LENGTH);
        iSerialNumber[..StringLen(n)] == StringBytes(U8(StringLen(n)), s.value[..n])
      ensures s.None? ==> iSerialNumber[..] == old(iSerialNumber[..])
      ensures enabled == old(enabled) && numParts == old(numParts) && numPlugins == old(numPlugins)
    {
      if s.None? {
        haveSerialNumber := false;
      } else {
        haveSerialNumber := true;
        WriteString(iSerialNumber, s.value, USB_MAX_SERIAL_NUMBER_LENGTH);
      }
    }

    /**
     * `begin`: nothing when already enabled (no result is given then);
     * otherwise the registered parts go to the composite setup, and the
     * device is enabled exactly when they all fit.
     */
    method Begin(generic: GenericDevice) returns (ok: bool)
      requires Valid() && generic.Valid()
      modifies this, generic, generic.epIn, generic.epOut
      ensures Valid() && Parts() == old(Parts()) && Plugins() == old(Plugins())
      ensures old(enabled) ==> enabled && generic.parts == old(generic.parts) && generic.config == old(generic.config)
      ensures !old(enabled) ==> (ok <==> Fits(Parts())) && enabled == ok
      ensures !old(enabled) && ok ==> |generic.parts| == numParts && forall i | 0 <= i < numParts :: generic.parts[i] == PlacedPart(Parts(), i)
    {
      if enabled {
        return true;
      }
      ok := generic.Setup(parts[..numParts]);
      if !ok {
        return false;
      }
      enabled := true;
    }

    /** `end`: nothing when not enabled; otherwise the device is disabled. */
    method End()
      requires Valid()
      modifies this
      ensures Valid() && !enabled && Parts() == old(Parts()) && Plugins() == old(Plugins())
    {
      if !enabled {
        return;
      }
      enabled := false;
    }

    /** `clear`: both registries emptied. */
    method Clear()
      requires Valid()
      modifies this
      ensures Valid() && Parts() == [] && Plugins() == [] && enabled == old(enabled)
    {
      numParts := 0;
      numPlugins := 0;
    }

    /**
     * `add(plugin)`: false when the plugin registry is full; otherwise the
     * plugin is appended and the result is what its `registerParts` returns,
     * given as `registered`.
     */
    method AddPlugin(plugin: Plugin, registered: bool) returns (r: bool)
      requires Valid()
      modifies this, plugins
      ensures Valid() && Parts() == old(Parts())
      ensures old(numPlugins) >= USB_COMPOSITE_MAX_PLUGINS ==> !r && Plugins() == old(Plugins())
      ensures old(numPlugins) < USB_COMPOSITE_MAX_PLUGINS ==> r == registered && Plugins() == old(Plugins()) + [plugin]
    {
      if numPlugins >= USB_COMPOSITE_MAX_PLUGINS {
        return false;
      }
      plugins[numPlugins] := plugin;
      numPlugins := numPlugins + 1;
      return registered;
    }

    /**
     * `add(part)`: false when the part registry is full; otherwise the part
     * is appended (the source returns no value then).
     */
    method AddPart(part: Part) returns (r: bool)
      requires Valid()
      modifies this, parts
      ensures Valid() && Plugins() == old(Plugins())
      ensures old(numParts) >= USB_COMPOSITE_MAX_PARTS ==> !r && Parts() == old(Parts())
      ensures old(numParts) < USB_COMPOSITE_MAX_PARTS ==> Parts() == old(Parts()) + [part]
    {
      if numParts >= USB_COMPOSITE_MAX_PARTS {
        return false;
      }
      parts[numParts] := part;
      numParts := numParts + 1;
      return true;
    }
  }
}
