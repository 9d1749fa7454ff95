// `USBMassStorageDevice`: the table of drives the mass-storage part serves
// and the plugin's registration with the composite device.
module MassStorage {
  import opened Prelude
  import opened UsbGeneric
  import opened UsbDevice
  import opened UsbMass

  /** Drives the table holds. */
  const USB_MASS_MAX_DRIVES: nat := 2
  const SECTOR_SIZE: nat := 512

  /** An entry of `usb_mass_drives`. */
  datatype Drive = Drive(blockCount: uint32, blockSize: uint32, read: Hook, write: Hook, status: Hook, init: Hook, format: Hook)

  /** An entry as `memset` to zero leaves it. */
  const EMPTY_DRIVE: Drive := Drive(0, 0, NoHook, NoHook, NoHook, NoHook, NoHook)

  /** What `setDrive` stores: the initialiser doubles as the format callback. */
  function DriveOf(blockCount: uint32, blockSize: uint32, reader: Hook, writer: Hook, statuser: Hook, initializer: Hook): (d: Drive)
    ensures d.blockCount == blockCount && d.blockSize == blockSize
    ensures d.read == reader && d.write == writer && d.status == statuser
    ensures d.init == initializer && d.format == initializer
  {
    Drive(blockCount, blockSize, reader, writer, statuser, initializer, initializer)
  }

  /** The byte-size overload: whole 512-byte sectors, the remainder dropped. */
  lemma BytesDrive(byteSize: uint32, reader: Hook, writer: Hook, statuser: Hook, initializer: Hook)
    ensures var d := DriveOf(byteSize / SECTOR_SIZE, SECTOR_SIZE, reader, writer, statuser, initializer);
      d.blockCount * d.blockSize <= byteSize < d.blockCount * d.blockSize + SECTOR_SIZE
  {
  }

  /** The mass-storage part as the composite device receives it. */
  function MassPart(): (p: Part)
    ensures p.numInterfaces == 1 && |p.endpoints| == 2
    ensures p.endpoints[0].tx && !p.endpoints[1].tx
  {
    Part(1, 0, MASS_DESCRIPTOR,
      [Endpoint(MAX_BULK_PACKET_SIZE, true, Handler(0), 0, 0), Endpoint(MAX_BULK_PACKET_SIZE, false, Handler(1), 0, 0)])
  }

  /** The plugin object itself, as the device's plugin table records it. */
  const MASS_PLUGIN: Plugin := Plugin(0)

  class MassStorageDevice {
    const drives: array<Drive>
    var enabled: bool

    ghost predicate Valid()
      reads this
    {
      drives.Length == USB_MASS_MAX_DRIVES
    }

    constructor()
      ensures Valid() && !enabled && fresh(drives)
      ensures forall k | 0 <= k < drives.Length :: drives[k] == EMPTY_DRIVE
    {
      drives := new Drive[USB_MASS_MAX_DRIVES](_ => EMPTY_DRIVE);
      enabled := false;
    }

    /** `setDrive`: a drive number past the table is ignored; otherwise that entry, and only it, is replaced. */
    method SetDrive(driveNumber: uint32, blockCount: uint32, blockSize: uint32, reader: Hook, writer: Hook, statuser: Hook, initializer: Hook)
      requires Valid()
      modifies drives
      ensures driveNumber >= USB_MASS_MAX_DRIVES ==> drives[..] == old(drives[..])
      ensures driveNumber < USB_MASS_MAX_DRIVES ==>
        drives[..] == old(drives[..])[driveNumber := DriveOf(blockCount, blockSize, reader, writer, statuser, initializer)]
    {
      if driveNumber >= USB_MASS_MAX_DRIVES {
        return;
      }
      drives[driveNumber] := DriveOf(blockCount, blockSize, reader, writer, statuser, initializer);
    }

    /** `setDrive` by size in bytes: `byteSize / 512` blocks of 512 bytes. */
    method SetDriveBytes(driveNumber: uint32, byteSize: uint32, reader: Hook, writer: Hook, statuser: Hook, initializer: Hook)
      requires Valid()
      modifies drives
      ensures driveNumber >= USB_MASS_MAX_DRIVES ==> drives[..] == old(drives[..])
      ensures driveNumber < USB_MASS_MAX_DRIVES ==>
        drives[..] == old(drives[..])[driveNumber := DriveOf(byteSize / SECTOR_SIZE, SECTOR_SIZE, reader, writer, statuser, initializer)]
    {
      SetDrive(driveNumber, byteSize / SECTOR_SIZE, SECTOR_SIZE, reader, writer, statuser, initializer);
    }

    /** `clearDrives`: every entry zeroed. */
    method ClearDrives()
      requires Valid()
      modifies drives
      ensures drives[..] == seq(USB_MASS_MAX_DRIVES, _ => EMPTY_DRIVE)
    {
      forall k | 0 <= k < drives.Length {
        drives[k] := EMPTY_DRIVE;
      }
    }

    /**
     * `begin`: only while not enabled, the device is cleared, this plugin
     * and its part registered and the device begun; the plugin counts as
     * enabled afterwards whatever the device's `begin` returned. The
     * plugin's `registerParts` (adding the mass-storage part) runs inside
     * `add(this)`; after `clear` the plugin table has room, so it always
     * runs, and it is done here first with its result passed to `add`.
     */
    method Begin(device: CompositeDevice, generic: GenericDevice)
      requires Valid() && device.Valid() && generic.Valid()
      modifies this, device, device.parts, device.plugins, generic, generic.epIn, generic.epOut
      ensures Valid() && device.Valid() && enabled
      ensures old(enabled) ==> device.Parts() == old(device.Parts()) && device.Plugins() == old(device.Plugins())
      ensures !old(enabled) ==> device.Parts() == [MassPart()] && device.Plugins() == [MASS_PLUGIN]
    {
      if !enabled {
        device.Clear();
        var registered := device.AddPart(MassPart());
        var added := device.AddPlugin(MASS_PLUGIN, registered);
        var ok := device.Begin(generic);
        enabled := true;
      }
    }

    /** `end`: ends the device but leaves `enabled` set, so a later `begin` does nothing. */
    method End(device: CompositeDevice)
      requires Valid() && device.Valid()
      modifies device
      ensures device.Valid() && !device.enabled && device.Parts() == old(device.Parts())
    {
      device.End();
    }
  }
}
