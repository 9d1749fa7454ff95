# USB composite firmware for the STM32F1, in Dafny

This project models the logic of a USB composite-device library for STM32F1
boards and proves properties of that model. The library is firmware that
lets one device act as any mix of these, each a *part*:

- a CDC serial port
- HID keyboard, mouse, joystick, digitizer and raw HID
- audio
- MIDI
- mass storage
- wired, multi-controller and wireless X-Box 360 controllers

The model also covers two helpers that ship with the library's examples: a
sparse sector-image encoder and a read-only FAT16 volume synthesiser.

Each modelled source file becomes one Dafny module. Shared vocabulary lives
in three more:
- `Prelude`: bytes, fixed-width integers, Option, little-endian helpers.
- `Bits`: bitwise operations written arithmetically.
- `ByteRing`: the 256-byte queue that the serial, HID and audio drivers share.

Code that changes state becomes a class. Its fields are the source's
globals or members. Every method's `ensures` ties the new state to the old
one, either directly or through a specification function. Pure code
becomes functions with lemmas.

The main proved properties:
- Every queue operation preserves the ring invariant (at most 255 bytes
  queued) and keeps the queue's contents in order: the bytes queued or
  delivered are exactly the ones asked for, and none are lost.
- HID report buffers: lookup, add, clear, the class requests of section
  7.2 of HID 1.11 (SET_REPORT, GET_REPORT, GET_PROTOCOL, SET_PROTOCOL) and
  get_data. The library keeps each buffer in an EMPTY/UNREAD/READ state of
  its own: SET_REPORT marks a buffer UNREAD and get_data marks it READ.
- Mass storage: the Bulk-Only Transport state machine validates a CBW
  (section 6.2 of the USB Mass Storage Class Bulk-Only Transport 1.0
  specification) and builds the CSW (sections 5.1-5.2 of the same). The
  CSW encoding round-trips, and READ(10)/WRITE(10) decode the block
  address and count big-endian.
- Composite setup: interfaces, endpoints, descriptor offsets and packet
  memory are allocated consecutively within their limits. Setup requests
  go to the first part that accepts them.
- MIDI: each event packet survives dispatch (section 4 of the USB Device
  Class Definition for MIDI Devices 1.0), with 14-bit values split and
  rejoined. The hex-line encoder frames its record and its checksum
  cancels.
- Input devices:
  - the keyboard keeps its six-key rollover invariant;
  - the joystick's 10-bit fields and the X-Box report layouts round-trip
    through their bytes;
  - each setter changes only its own field.
- Utilities:
  - UTF-16LE string descriptors follow section 9.6.7 of USB 2.0;
  - the hex serial number reads back as the ID modulo `16^n`;
  - the constexpr descriptor patcher relocates bytes.
- The sector image decodes back to the zero-padded input.
- The FAT16 volume:
  - serves a boot sector whose BPB describes the layout;
  - keeps two identical FATs whose chains match the files' start clusters;
  - converts 8.3 names in both directions.

Some functions serve several parts:
- `ByteRing.Ring.Transmit` models `usb_hid_tx` and `composite_cdcacm_tx`
  (usb_hid.c:341-369, usb_composite.c:556-584): the bytes are queued by
  `ByteRing.Ring.Write`, then the transmit callback is started at once
  (`hidDataTxCb`, `vcomDataTxCb`), which sends a packet when the endpoint
  was idle; `ByteRing.Ring.Drain` is that callback.
- `ByteRing.Ring.Write` alone is `usb_audio_write_tx_data`, which does not
  start the callback.
- `UsbCore.GetInterfaceSetting` and `UsbCore.StringDescriptorIndex` hold
  the checks that the composite, MIDI and X-Box parts repeat.
- The mass-storage `loop()` of MassStorage.cpp only calls
  `usb_mass_loop`, which is `UsbMass.MassBot.Loop`.

Interrupts appear as explicit calls that the caller makes:
- `Drain` stands for a transmit-complete interrupt, and `DrainAll` for
  the interrupts that empty the queue while a sender busy-waits on an
  endpoint that has a transfer in flight.
- `Receive` stands for a receive interrupt.
- the `*Callback` methods stand for an endpoint callback.

Anything the hardware decides becomes a parameter: an endpoint's readiness
after a wait, whether an IN transfer is in flight when a send starts
(`busy`), the `registerParts` result, the drive callbacks.

## Model

| member | source | states |
|---|---|---|
| UsbCore.GetInterfaceSetting | usb_composite.c:1437-1445 | only alternate setting 0 of interfaces 0 and 1 is accepted; everything else is unsupported |
| UsbCore.StringDescriptorIndex | usb_midi_device.c:670-677 | a string descriptor index is served exactly when it is inside the table, and then it selects that entry |
| ByteRing.Slot | usb_composite.c:573 | the index after `k` more bytes wraps modulo 256 and stays a valid slot |
| ByteRing.Distance | usb_composite.c:589 | the queued count `(head - tail) & 0xFF` is the difference modulo 256, below 256 |
| ByteRing.Accepted | usb_composite.c:564-566 | a write takes all offered bytes unless that would fill the last free slot, in which case it takes exactly enough to leave one slot free |
| ByteRing.PeekExCountAsWritten | usb_composite.c:639-655 | with no offset the lookahead count is `min(len, queued)`; with an offset its count is the C expression (see Findings) |
| ByteRing.PeekAtCount | usb_composite.c:639-655 | the intended lookahead count: never past the queued bytes, at most `len`, exactly `min(len, queued - offset)` when the offset is inside the queue |
| ByteRing.PeekExSkipsOffsetTwice | usb_composite.c:642-647 | ten queued, offset four, length ten: the C code hands out two bytes where six are available |
| ByteRing.PeekExOverruns | usb_composite.c:645-646 | six queued, offset four, length ten: the C count wraps to 2^32 - 2 where two bytes are available |
| ByteRing.AppendedContents | usb_composite.c:571-574 | bytes stored at the slots after the head appear at the end of the queue contents, after the ones already queued |
| ByteRing.Ring.Count | usb_composite.c:588-594 | `data_available` and `get_pending` are below 256 |
| ByteRing.Ring.constructor | usb_composite.c:417-428 | the statically zeroed storage with both indices 0 holds an empty queue |
| ByteRing.Ring.Reset | usb_composite.c:1228-1231 | zeroing both indices empties the queue |
| ByteRing.Ring.Write | usb_audio.c:511-538 | `usb_audio_write_tx_data`, and the queueing step of `composite_cdcacm_tx` and `usb_hid_tx`, queue `Accepted(len, pending)` bytes, return that number, and the queue contents become the old contents followed by those bytes; slots outside the new bytes are unchanged |
| ByteRing.Ring.Transmit | usb_hid.c:341-369 | `usb_hid_tx` and `composite_cdcacm_tx` queue `Accepted(len, pending)` bytes and then run the transmit callback: what left the queue followed by what is still queued is the old queue followed by the accepted bytes; nothing is sent when nothing was accepted; on an idle endpoint one packet of `min(epSize, queued)` bytes goes out and the endpoint becomes busy; on a busy one the queue is empty on return and the endpoint idle |
| ByteRing.Ring.DrainAll | usb_hid.c:362 | packets leave until the queue is empty, and together they are the old queue contents in order |
| ByteRing.Ring.Store | usb_composite.c:571-575 | the copy loop writes `src[j]` at the `j`-th slot after the old head, moves the head by `n` and changes no other slot |
| ByteRing.Ring.Peek | usb_composite.c:621-637 | copies the oldest `min(len, Count())` queued bytes into the buffer, leaves the rest of the buffer and the queue unchanged |
| ByteRing.Ring.Advance | usb_composite.c:606-608 | moving the tail by `n` drops exactly the `n` oldest bytes |
| ByteRing.Ring.Read | usb_composite.c:600-616 | `composite_cdcacm_rx` returns the oldest `min(len, Count())` bytes in order and dequeues exactly those |
| ByteRing.Ring.Drain | usb_composite.c:702-732 | the transmit callback sends the oldest `min(max, Count())` bytes as one packet and dequeues exactly those |
| ByteRing.Ring.Skim | usb_audio.c:580-622 | the audio transmit callback sends the next `k` slots, whether queued or not; if fewer than `k` were queued the count then wraps to `256 + count - k` |
| ByteRing.Ring.PeekAt | usb_composite.c:639-655 | intended `peek_ex`: copies queue bytes `offset .. offset + n` with `n = PeekAtCount`, nothing else in the buffer changes |
| ByteRing.Ring.PeekChar | usb_composite.c:658-666 | `peek_char` is -1 exactly when the queue is empty, otherwise the oldest queued byte |
| CompositeSerial.IsConnected | CompositeSerial.cpp:159-161 | connected exactly when the link is up and configured and the DTR bit of the line state is set |
| CompositeSerial.Available | CompositeSerial.cpp:100-102 | the number of received bytes not yet read, below 256 |
| CompositeSerial.Pending | CompositeSerial.cpp:155-157 | the number of bytes queued for sending |
| CompositeSerial.Write | CompositeSerial.cpp:85-98 | nothing is queued when disconnected or the buffer is NULL; otherwise every byte is offered until accepted, each `composite_cdcacm_tx` starting the transmit callback as `Ring.Transmit` says for the endpoint's `busy` state, and what the endpoint took followed by what is still queued is the old queue followed by all of `buf`; the result is always 0 |
| CompositeSerial.WriteRound | CompositeSerial.cpp:93-95 | one loop round keeps "sent + queued = old queue + bytes offered so far" and makes progress: bytes are accepted or the queue gets shorter |
| CompositeSerial.WriteByte | CompositeSerial.cpp:73-77 | a one-byte write with result 0 |
| CompositeSerial.ReadRound | CompositeSerial.cpp:130-132 | one loop round dequeues `min(wanted, queued)` bytes; when the queue was empty the next host packet arrives; "read so far + queued = old queue + host bytes arrived" is kept |
| CompositeSerial.Take | usb_composite.c:600-616 | one `composite_cdcacm_rx` call moves `min(len - rxed, queued)` bytes from the queue to the buffer, keeping their order |
| CompositeSerial.Receive | usb_composite.c:740-761 | the receive interrupt appends the next packet of at most 64 host bytes to the empty queue |
| CompositeSerial.Read | CompositeSerial.cpp:128-135 | reads exactly `len` bytes: the first `len` of the queued bytes followed by the host bytes that arrived, and the rest stays queued |
| CompositeSerial.ReadByte | CompositeSerial.cpp:138-153 | the result is -1 on an empty queue and the queue unchanged, otherwise the oldest byte, which is dequeued |
| CompositeSerial.Peek | CompositeSerial.cpp:104-115 | agrees with `peek_char`: -1 on an empty queue, otherwise the oldest byte, nothing dequeued |
| CompositeSerial.Flush | CompositeSerial.cpp:117-126 | afterwards the receive queue is empty |
| UsbComposite.StringDescriptorIndexAsWritten | usb_composite.c:1455-1462 | the guard lets every index up to and including `N_STRING_DESCRIPTORS` through (see Findings) |
| UsbComposite.StringDescriptorOverrun | usb_composite.c:1458 | index 3 passes the guard of a three-entry table, while the bounded lookup refuses it |
| UsbComposite.LineBit | usb_composite.c:668-674 | the reported line bit is 0 or 1, and 1 exactly when the masked stored bits are non-zero |
| UsbComposite.ControlLines | usb_composite.c:1413-1418 | SET_CONTROL_LINE_STATE stores a value below 4 |
| UsbComposite.ControlLinesReported | usb_composite.c:1413-1418 | after SET_CONTROL_LINE_STATE, DTR reads back as bit 0 and RTS as bit 1 of wValue |
| UsbComposite.GetBufferIndex | usb_composite.c:1295-1300 | the result is the first index below `count` whose report ID matches, or -1 exactly when none matches |
| UsbComposite.SetBuffersAsWritten | usb_composite.c:956-970 | every installed buffer is emptied, keeps its length, and a feature table is labelled with its own report IDs (an output table is not: see Findings) |
| UsbComposite.OutputBufferMislabelled | usb_composite.c:967 | an output buffer with ID 2 next to a feature buffer with ID 1 gets byte 0 = 1 |
| UsbComposite.Installed | usb_composite.c:965-968 | an installed buffer is empty, keeps its length and its other bytes, and byte 0 is its own report ID |
| UsbComposite.Composite.constructor | usb_composite.c:417-445 | all three queues start empty, the line state and protocol value at 0, and no buffers are installed |
| UsbComposite.Composite.GetDtr | usb_composite.c:668-670 | 1 exactly when the DTR bit of the line state is set, otherwise 0 |
| UsbComposite.Composite.GetRts | usb_composite.c:672-674 | 1 exactly when the RTS bit of the line state is set, otherwise 0 |
| UsbComposite.Composite.NoDataSetup | usb_composite.c:1403-1435 | the request succeeds exactly for the three class-interface requests; SET_CONTROL_LINE_STATE records the DTR/RTS bits, SET_PROTOCOL records wValue0, and nothing else of the part's state changes (the user hook call is left out) |
| UsbComposite.Composite.SetBuffers | usb_composite.c:956-970 | the intended `usb_hid_set_buffers`: the chosen table becomes `bufs`, each installed (emptied and labelled with its own ID); the other table is untouched |
| UsbDevice.VendorIdFor | USBDevice.c:6-11 | the stored vendor ID is never 0: a non-zero ID is kept, 0 selects 0x1EAF |
| UsbDevice.ProductIdFor | USBDevice.c:13-18 | intended `setProductId`: a non-zero ID is kept, 0 selects 0x0004, so the stored ID is never 0 |
| UsbDevice.ProductIdAsWritten | USBDevice.c:13-18 | as written, the choice depends on the value of `_vendorId`, not on the argument (see Findings) |
| UsbDevice.ProductIdZeroStored | USBDevice.c:14-15 | with a non-zero `_vendorId`, a product ID of 0 is stored, which the intended setter never does |
| UsbDevice.DefaultLength | USBDevice.c:22-25 | the copied length is the default descriptor's bLength capped at the buffer's descriptor size |
| UsbDevice.CharCount | USBDevice.c:30-32 | the kept character count is the string's length capped at `maxLength` |
| UsbDevice.CopiedDefaultWellFormed | USBDevice.c:21-28 | a copied default of at least two bytes is a well-formed string descriptor, and a well-formed default that fits is copied byte for byte |
| UsbDevice.CopyDefault | USBDevice.c:21-28 | the NULL branch copies the default descriptor's first `n` bytes with `n` as the length byte and leaves the rest of the buffer |
| UsbDevice.WriteStringAsWritten | USBDevice.c:29-39 | as written, byte 0 is the character count, followed by the descriptor type and the UTF-16LE characters |
| UsbDevice.WriteString | USBDevice.c:29-39 | intended: byte 0 is the descriptor's size `2 + 2n`, followed by the descriptor type and the UTF-16LE characters; the rest of the buffer is unchanged |
| UsbDevice.SetStringAsWritten | USBDevice.c:20-40 | the NULL string copies the default, any other string is written with the character count as length byte |
| UsbDevice.SetString | USBDevice.c:20-40 | the NULL string copies the default, any other string is written as a well-sized descriptor |
| UsbDevice.SetStringDescriptor | USBDevice.c:29-39 | the intended descriptor of up to 126 characters is well formed and reads back as those characters; the as-written one is never well formed |
| UsbDevice.SetStringCountExample | USBDevice.c:33 | the string "ab" becomes six bytes whose length byte says 2 |
| UsbDevice.CompositeDevice.constructor | USBDevice.h:55-66 | a new device is disabled, has no serial number and empty registries |
| UsbDevice.CompositeDevice.SetVendorId | USBDevice.c:6-11 | stores `VendorIdFor(v)` and changes nothing else |
| UsbDevice.CompositeDevice.SetProductIdAsWritten | USBDevice.c:13-18 | stores `ProductIdAsWritten(vendorIdSeen, p)` and changes nothing else |
| UsbDevice.CompositeDevice.SetProductId | USBDevice.c:13-18 | stores `ProductIdFor(p)` and changes nothing else |
| UsbDevice.CompositeDevice.SetManufacturerString | USBDevice.c:42-44 | the manufacturer descriptor is the default one for NULL, otherwise the string capped at 32 characters |
| UsbDevice.CompositeDevice.SetProductString | USBDevice.c:46-48 | the product descriptor is the default one for NULL, otherwise the string capped at 32 characters |
| UsbDevice.CompositeDevice.SetSerialString | USBDevice.c:50-57 | a serial number is present exactly when a string is given, and its descriptor holds that string capped at 20 characters; NULL leaves the descriptor bytes alone |
| UsbDevice.CompositeDevice.Begin | USBDevice.c:59-72 | an enabled device stays as it is; otherwise it becomes enabled exactly when the registered parts fit the composite layout, and then the generic layer holds each part placed in order |
| UsbDevice.CompositeDevice.End | USBDevice.c:74-82 | afterwards the device is disabled and the registries are unchanged |
| UsbDevice.CompositeDevice.Clear | USBDevice.c:84-87 | both registries are empty afterwards |
| UsbDevice.CompositeDevice.AddPlugin | USBDevice.c:89-94 | a full registry refuses the plugin; otherwise it is appended and the result is what its `registerParts` returns |
| UsbDevice.CompositeDevice.AddPart | USBDevice.c:96-100 | a full registry refuses the part; otherwise it is appended |
| UsbStrings.Utf16 | USBDevice.c:35-38 | widening to UTF-16LE doubles the length |
| UsbStrings.Utf16At | USBDevice.c:36-37 | code unit `i` of a widened string is character `i` followed by a zero byte |
| UsbStrings.LowBytesUtf16 | USBDevice.c:35-38 | the characters can be read back from their widened form |
| UsbStrings.StringBytes | USBDevice.c:33-38 | a string descriptor of `n` characters is `2 + 2n` bytes long |
| UsbStrings.TextOfStringBytes | USBDevice.c:33-38 | the text written into a descriptor is the text read back from it, whatever the length byte |
| UsbStrings.StringLenHeader | usb_hid_device.cpp:40-53 | with `USB_DESCRIPTOR_STRING_LEN(n)` as length byte the descriptor is well formed exactly when it has at most 126 characters |
| UsbStrings.CharCountHeader | USBDevice.c:33 | with the character count as length byte the descriptor is never well formed |
| UsbStrings.WriteChars | USBDevice.c:35-38 | the loop writes the widened first `n` characters after the two header bytes and touches nothing else |
| UsbStrings.CharsStep | USBDevice.c:36-37 | one pass appends one widened character and keeps the rest of the buffer |
| UsbGeneric.PlacedEndpoints | usb_generic.c:166-181 | placing a part's endpoint table keeps its length |
| UsbGeneric.PlacedAt | usb_generic.c:169-173 | endpoint `j` of a placed table gets number `n + j`, and its buffer starts after the buffers of the endpoints before it |
| UsbGeneric.TotalSplit | usb_generic.c:170 | the packet memory of a table is that of its front plus that of its back |
| UsbGeneric.BeforeMonotone | usb_generic.c:147-183 | endpoint counts, packet-memory offsets and descriptor sizes only grow from part to part |
| UsbGeneric.DescriptorAt | usb_generic.c:163-164 | each part's descriptor sits in the configuration data right after the descriptors of the parts before it |
| UsbGeneric.PlacedWithinPma | usb_generic.c:167-170 | when every part fits, each endpoint buffer lies between the end of endpoint 0's buffers and the end of packet memory, and the next buffer starts where it ends |
| UsbGeneric.PartEndpointAt | usb_generic.c:169-175 | endpoint `j` of part `i` after setup: numbered after all earlier endpoints, buffer after all earlier buffers, a NULL handler replaced by the no-op |
| UsbGeneric.TotalSnoc | usb_generic.c:170 | the memory of the first `j + 1` buffers is that of the first `j` plus buffer `j` |
| UsbGeneric.EndpointNumbers | usb_generic.c:171 | endpoint numbers increase strictly across parts and within a part, start at 1 and stay below 8, so no two endpoints share a number |
| UsbGeneric.PlaceStep | usb_generic.c:166-181 | placing from endpoint `j` places endpoint `j`, then the rest after its buffer |
| UsbGeneric.PlaceAdvance | usb_generic.c:166-181 | the endpoint loop's invariant carries over from one endpoint to the next |
| UsbGeneric.PlacedFlat | usb_generic.c:147-183 | the placed endpoints of the first `i` parts number as many as those parts have |
| UsbGeneric.FlatNumbers | usb_generic.c:171 | the `k`-th placed endpoint, counted across parts, has number `k + 1` |
| UsbGeneric.FlatAt | usb_generic.c:166-181 | endpoint `j` of part `i` is found among the placed endpoints after those of the earlier parts |
| UsbGeneric.Route | usb_generic.c:174-179 | routing keeps the handler table's size |
| UsbGeneric.RouteConsecutive | usb_generic.c:174-179 | with endpoints numbered 1, 2, ..., slot `k` holds endpoint `k + 1`'s handler in its own direction and keeps its old handler otherwise |
| UsbGeneric.EndpointRouted | usb_generic.c:174-187 | when every part fits, each endpoint's handler is in the slot of its number in its own direction, and the other direction's slot is unchanged |
| UsbGeneric.RouteAppend | usb_generic.c:174-179 | routing two runs of endpoints is routing the first then the second |
| UsbGeneric.EndpointLoopNeverEnds | usb_generic.c:166 | as written, the endpoint loop condition `j < numEndpoints` never fails: the loop stops only when packet memory runs out or reads past the part's table (see Findings) |
| UsbGeneric.OneEndpointReadsPastTable | usb_generic.c:166-181 | a part with one endpoint that fits makes the loop read past its table |
| UsbGeneric.GenericDevice.constructor | usb_generic.c:144-145 | no parts, no configuration data, both handler tables of size 7 |
| UsbGeneric.GenericDevice.PlaceEndpoints | usb_generic.c:166-181 | the endpoint loop bounded by the part's table: succeeds exactly when all buffers fit in packet memory, then returns the placed table; the handler tables are the old ones with the placed endpoints routed |
| UsbGeneric.GenericDevice.RouteNext | usb_generic.c:168-180 | one endpoint gets its number, buffer address and non-null handler, which goes into the slot of its direction |
| UsbGeneric.GenericDevice.Setup | usb_generic.c:147-197 | succeeds exactly when the parts fit (endpoint numbers, descriptor room, packet memory); then every part is numbered, laid out and routed, the configuration data is the descriptors back to back, and the header counts interfaces, total length and endpoints |
| UsbGeneric.GenericDevice.FinishSetup | usb_generic.c:185-196 | after the last part the unused slots get the no-op and the header fields and `Total_Endpoint` are set |
| UsbGeneric.GenericDevice.SetupPart | usb_generic.c:157-182 | one pass of the part loop either fails, and then the parts do not fit, or extends the progress invariant to the next part |
| UsbGeneric.GenericDevice.FillUnused | usb_generic.c:185-188 | slots from the first unused endpoint on get the no-op, the others are unchanged |
| UsbGenericRequests.FirstAnswer | usb_generic.c:321-339 | the answer is UNSUPPORT exactly when every part answered UNSUPPORT, otherwise the first other answer in part order |
| UsbHid.WithOutputBit | usb_hid.c:303-306 | setting or clearing the output bit gives exactly the requested output bit and keeps every other mode bit |
| UsbHid.FindFrom | usb_hid.c:220-230 | the scan returns the first matching slot (present buffer, output bit agreeing with the type, same ID) at or after `i`, or nothing exactly when no such slot exists |
| UsbHid.FreeFrom | usb_hid.c:316-321 | the first slot at or after `i` whose buffer is NULL, or nothing exactly when every slot is taken |
| UsbHid.Prepared | usb_hid.c:303-308 | the buffer as `usb_hid_add_buffer` prepares it: memory zeroed except the report ID in byte 0, output bit matching the type, so a lookup of its type and ID matches it |
| UsbHid.AddedIsFound | usb_hid.c:302-325 | after a successful add, looking the ID up finds exactly the buffer just added |
| UsbHid.FindFirst | usb_hid.c:220-230 | a matching slot with no match before it is the one the lookup returns |
| UsbHid.AddFailsOnlyWhenFull | usb_hid.c:302-325 | adding fails exactly when no slot serves the type and ID and no slot is free, and a failed add changes nothing |
| UsbHid.Cleared | usb_hid.c:287-294 | slots of the given type lose their buffer, all other slots are unchanged |
| UsbHid.ClearedFindsNothing | usb_hid.c:287-294 | after clearing a type no report ID of that type is found |
| UsbHid.ClearOtherTypeKeepsLookups | usb_hid.c:296-300 | clearing the other type leaves every lookup of this type unchanged |
| UsbHid.AddedAll | usb_hid.c:331-334 | adding a run of buffers keeps the table's size |
| UsbHid.AddedAllKeepsOtherKind | usb_hid.c:331-334 | adding buffers of one type never displaces a buffer of the other type |
| UsbHid.Installed | usb_hid.c:327-335 | installing keeps the table's size |
| UsbHid.InstalledKeepsOtherKind | usb_hid.c:327-335 | installing the buffers of one type leaves every buffer of the other type in its slot |
| UsbHid.TxEpSize | usb_hid.c:141-146 | the endpoint size is between 1 and 64: a size in that range is kept, 0 and larger sizes become 64 |
| UsbHid.GetData | usb_hid.c:254-285 | the count is the number of bytes handed out, and the table keeps its size |
| UsbHid.PollDeliversOnce | usb_hid.c:266-274 | a polling reader gets a report once; a second poll returns nothing until SET_REPORT marks it UNREAD again |
| UsbHid.SetFeature | usb_hid.c:232-244 | without a matching feature buffer nothing changes; otherwise only that buffer changes: it holds the data after its ID byte, keeps a non-zero ID in byte 0, and is READ |
| UsbHid.SetFeatureThenGet | usb_hid.c:232-285 | what the sketch reads back after `set_feature` is the data it stored |
| UsbHid.DataSetup | usb_hid.c:425-485 | the table keeps its size; a request that fails leaves it unchanged and sends nothing; the report descriptor is sent exactly for the standard GET_DESCRIPTOR of REPORT_DESCRIPTOR and the HID descriptor exactly for that of HID_DESCRIPTOR_TYPE; the standard GET_PROTOCOL succeeds, changes nothing and sends the protocol byte |
| UsbHid.SetReportStates | usb_hid.c:430-448 | SET_REPORT for an unknown buffer is unsupported; it is NOT_READY exactly when the buffer is UNREAD and not in no-wait mode; an accepted one leaves the buffer UNREAD with its memory in place |
| UsbHid.GetReportStates | usb_hid.c:450-460 | GET_REPORT for a feature report never changes the table and is unsupported exactly when no feature buffer serves the report or its buffer is EMPTY; otherwise it succeeds and sends the buffer's `bufferSize` bytes |
| UsbHid.HidPart.constructor | usb_hid.c:177-183 | no buffers, protocol 0, endpoint size 64 and an empty transmit queue |
| UsbHid.HidPart.SetTxEpSize | usb_hid.c:141-146 | both the part's endpoint size and the endpoint entry become `TxEpSize(size)` |
| UsbHid.HidPart.FindBuffer | usb_hid.c:220-230 | the loop's result is the lookup `Find` of the current table |
| UsbHid.HidPart.SetFeatureReport | usb_hid.c:232-244 | the table becomes `SetFeature` of the old one |
| UsbHid.HidPart.GetDataReport | usb_hid.c:254-285 | count, bytes and new table are those `GetData` gives |
| UsbHid.HidPart.ClearBuffers | usb_hid.c:287-294 | the table becomes `Cleared` of the old one |
| UsbHid.HidPart.Clear | usb_hid.c:296-300 | protocol 0 and every buffer slot NULL |
| UsbHid.HidPart.AddBuffer | usb_hid.c:302-325 | the flag and the new table are those `Added` gives, and the caller's buffer is left prepared |
| UsbHid.HidPart.SetBuffers | usb_hid.c:327-335 | the table becomes `Installed` of the old one, and each caller buffer is left retyped and prepared |
| UsbHid.HidPart.InstallOne | usb_hid.c:331-334 | one round of the install loop adds the next retyped buffer |
| UsbHid.HidPart.DataSetupRequest | usb_hid.c:425-485 | result, new table and the data sent back are those `DataSetup` gives for the current protocol value |
| UsbHid.HidPart.NoDataSetup | usb_hid.c:488-499 | only the class request SET_PROTOCOL succeeds and it records wValue0, which GET_PROTOCOL then sends back; anything else is unsupported and changes nothing |
| UsbHid.HidPart.Reset | usb_hid.c:417-422 | the transmit queue is empty afterwards |
| HidDevice.GenerateDescriptor | usb_hid_device.cpp:40-53 | writes at most `maxLength` characters in UTF-16LE after the length byte `2 + 2n` and the STRING type, touches nothing past them, and for `maxLength <= 126` the result is a well-formed descriptor whose text is the kept characters |
| HidDevice.HexSerial | usb_hid_device.cpp:55-64 | exactly `nibbles` characters, each a lowercase hex digit |
| HidDevice.HexSerialValue | usb_hid_device.cpp:55-64 | read back least-significant digit first, the serial number is `id mod 16^nibbles`: the low nibbles of the ID, nothing else lost |
| HidDevice.NibbleSplit | usb_hid_device.cpp:56 | the low nibble and the value shifted right by 4 together give the value modulo `16 * p` |
| HidDevice.PutSerialNumber | usb_hid_device.cpp:55-64 | writes `HexSerial(id, nibbles)` at `out[at..]`, returns the position after it and changes nothing else |
| HidDevice.ReportView | usb_hid_device.cpp:180-187 | a reporter with a report ID sends the whole memory; one without sends it from byte 1 on |
| HidDevice.Reporter.Report | usb_hid_device.cpp:180-187 | the reported bytes number `bufferSize` |
| HidDevice.Reporter.constructor | usb_hid_device.cpp:179-192 | the reported part is zeroed, byte 0 carries a non-zero report ID, and without an ID byte 0 keeps its old value |
| HidDevice.Reporter.Plain | usb_hid_device.cpp:194-199 | the two-argument constructor zeroes the whole memory and reports all of it with ID 0 |
| HidDevice.Reporter.SendReport | usb_hid_device.cpp:159-177 | every `usb_hid_tx` call queues and starts the callback as `Ring.Transmit` says for the endpoint's `busy` state; what the endpoint took followed by what is still queued is the old queue followed by the whole report |
| HidDevice.Reporter.SendRound | usb_hid_device.cpp:165-169 | one loop round keeps "sent + queued = old queue + report bytes offered so far" and makes progress |
| HidDevice.Reporter.GetFeature | usb_hid_device.cpp:209-211 | `usb_hid_get_data` for FEATURE and this reporter's ID: count, bytes and buffer table as `GetData` gives them |
| HidDevice.Reporter.GetOutput | usb_hid_device.cpp:213-215 | `usb_hid_get_data` for OUTPUT and this reporter's ID, likewise |
| HidDevice.Reporter.SetFeature | usb_hid_device.cpp:201-203 | the buffer table becomes `UsbHid.SetFeature` of the old table for this reporter's ID |
| HidDevice.RawBuffer | usb_hid_device.h:591-595 | the raw memory after `send`: the first `min(n, size)` bytes of the data, zeros after them |
| HidDevice.HidRaw.constructor | usb_hid_device.h:584-588 | the reporter is built with report ID 0 over memory of `size` bytes |
| HidDevice.HidRaw.Send | usb_hid_device.h:591-595 | the memory becomes `RawBuffer(data, size)` and what reaches the host is that memory from byte 1 on |
| HidDevice.PartsFor | usb_hid_device.cpp:119-128 | the HID part always comes first; the serial part follows exactly when serial support was chosen |
| HidDevice.HidDriver.constructor | usb_hid_device.cpp:37-38 | a new device is disabled, without serial support and without calls into the generic layer |
| HidDevice.HidDriver.SetSerial | usb_hid_device.cpp:135-137 | records the serial choice and changes nothing else |
| HidDevice.HidDriver.Describe | usb_hid_device.cpp:91-112 | each string given gets its descriptor written by `generateUSBDescriptor` |
| HidDevice.HidDriver.Begin | usb_hid_device.cpp:84-133 | an enabled device is left as it is; otherwise the descriptors of the given strings are written, the generic layer gets the IDs and which descriptors exist, the HID part the report descriptor, the parts are set and the device is enabled once |
| HidDevice.HidDriver.End | usb_hid_device.cpp:152-157 | the device ends disabled, and the generic layer is disabled exactly when it was enabled |
| UsbAudio.RangeBytes | usb_audio.c:740-741 | the range block is 14 packed little-endian bytes: subrange count, minimum, maximum and resolution at offsets 0, 2, 6 and 10 |
| UsbAudio.PacketBytes | usb_audio.c:492 | the frame size is `(rate / 1000) * channels` truncated to a byte, and at least `rate / 1000` when no truncation happens |
| UsbAudio.ClockSourceData | usb_audio.c:724-754 | data is served only for a non-zero length, the clock source entity and CUR or RANGE; CUR with the requested length, the two-byte CUR is the sample rate, RANGE is the range block |
| UsbAudio.DataSetup | usb_audio.c:691-709 | a class request in either direction succeeds, anything else is unsupported |
| UsbAudio.NoDataSetup | usb_audio.c:711-713 | no request without a data stage is supported |
| UsbAudio.RxAdvanceAsWritten | usb_audio.c:624-661 | the receive head advances by the packet size, plus one exactly when the packet size is odd (see Findings) |
| UsbAudio.OddPacketStoresExtraByte | usb_audio.c:645-649 | an 11-byte packet moves the receive head 12 places |
| UsbAudio.AudioPart.constructor | usb_audio.c:39-70 | both queues empty, no endpoint or descriptor chosen, the clock valid and a one-subrange range |
| UsbAudio.AudioPart.Init | usb_audio.c:466-501 | the device kind picks direction and channel count; an unknown class returns 0 and leaves rate and frame size; otherwise the frame size is returned, the descriptor layout chosen and the range collapses to the one rate |
| UsbAudio.AudioPart.SetEPSize | usb_audio.c:399-408 | 0 or more than a frame means one frame, the IN endpoint gets twice that, so the size is at most two frames |
| UsbAudio.AudioPart.WriteTx | usb_audio.c:511-538 | queues `Accepted(len, pending)` bytes at the end of the transmit queue and leaves the receive queue alone |
| UsbAudio.AudioPart.PeekRx | usb_audio.c:543-558 | copies the oldest `min(len, unread)` received bytes without dequeuing |
| UsbAudio.AudioPart.ReadRx | usb_audio.c:564-577 | copies the oldest `min(len, unread)` received bytes and dequeues exactly those |
| UsbAudio.AudioPart.TxFrameAsWritten | usb_audio.c:580-622 | as written, every frame sends `buffer_size` slots and reports `buffer_size`; with fewer bytes queued the count then wraps (see Findings) |
| UsbAudio.AudioPart.TxFrame | usb_audio.c:580-622 | intended: a frame sends at most `buffer_size` of the oldest queued bytes, and old queue = packet + new queue |
| UsbAudio.AudioPart.RxFrameAsWritten | usb_audio.c:624-661 | as written, the packet is stored from the head on and for an odd packet the next byte of packet memory too; the head moves by `RxAdvanceAsWritten` |
| UsbAudio.AudioPart.RxFrame | usb_audio.c:624-661 | intended: the head moves by the packet size, and when it fits the queue gains exactly the packet |
| UsbAudio.AudioPart.ClockData | usb_audio.c:724-754 | `audio_get` on the part's state: data only for a non-zero length, the clock source and CUR or RANGE; the two-byte CUR is the stored sample rate and RANGE is the stored range block |
| UsbAudio.AudioPart.Reset | usb_audio.c:663-669 | all four indices are 0 and both queues empty |
| UsbAudio.InitThenRange | usb_audio.c:494-499 | after a successful init a RANGE request reports one subrange from the rate to the rate with resolution 0 |
| AudioDevice.SamplePeriod | USBAudio.cpp:53-56 | for rates of 16 Hz and up the period is `1000000 / rate - 1` (below that the `uint16` wraps) |
| AudioDevice.SamplePeriodBrackets | USBAudio.cpp:53-56 | `period + 1` whole sample periods of a microsecond fit in a second and `period + 2` do not |
| AudioDevice.AudioObject.constructor | USBAudio.cpp:21 | a new object is not enabled |
| AudioDevice.AudioObject.GetSamplePeriod | USBAudio.cpp:48-51 | the period through the `uint8` result: its low byte, the period itself when it is below 256 |
| AudioDevice.AudioObject.Begin | USBAudio.cpp:62-76 | an enabled object stays as it is; otherwise the part is configured, the frame size it returns is kept (0 for an unknown class), the sample period derived, and the object is enabled |
| AudioDevice.AudioObject.InitPart | USBAudio.cpp:27-31 | the endpoint size follows the kept frame size as `usb_audio_setEPSize` sets it |
| AudioDevice.AudioObject.End | USBAudio.cpp:96-101 | afterwards the object is not enabled |
| UsbMidi.PacketBytes | USBMIDI.cpp:182-186 | the first byte carries the code index in its low nibble and the cable in its high nibble, the three MIDI bytes follow |
| UsbMidi.FromToWord | USBMIDI.cpp:182-186 | a packet read back from the word it is sent as is the same packet |
| UsbMidi.ToFromWord | USBMIDI.cpp:182-186 | a received word rebuilt from its packet is the same word |
| UsbMidi.Join7 | USBMIDI.cpp:197 | for a data byte below 0x80 the joined value is `hi * 128 + lo` |
| UsbMidi.DispatchPacket | USBMIDI.cpp:188-264 | pitch-wheel packets raise the pitch change; a three-byte system packet raises an event exactly for the song position, a two-byte one exactly for the song select; tick, statuses below 0xF6 and unknown code indices raise nothing |
| UsbMidi.VoiceChannel | USBMIDI.cpp:212 | the channel is the status's low nibble: sixteen times the high nibble plus the channel gives the status back |
| UsbMidi.Dispatch | USBMIDI.cpp:267-271 | a received word is handled as the packet that was sent as that word: every packet whose word it is dispatches to the same event |
| UsbMidi.DispatchAll | USBMIDI.cpp:267-271 | no more handler calls than received words |
| UsbMidi.VoiceStatus | USBMIDI.cpp:275-284 | the status keeps its high nibble and takes the channel's low nibble |
| UsbMidi.VoicePacket | USBMIDI.cpp:275-321 | a voice packet on the default cable with the given code index, the channel's low nibble and both data bytes truncated to `uint8` |
| UsbMidi.VoiceRoundTrip | USBMIDI.cpp:188-321 | note off, note on, key pressure and control change sent are dispatched back to the matching handler with the same channel and data |
| UsbMidi.TwoBytePacket | USBMIDI.cpp:323-341 | program change and channel pressure write the first data byte and leave the second as the previous send left it |
| UsbMidi.TwoByteRoundTrip | USBMIDI.cpp:188-264 | program change and channel pressure are dispatched back to their handlers |
| UsbMidi.FourteenBitPacket | USBMIDI.cpp:343-363 | both data bytes are seven-bit |
| UsbMidi.FourteenBitHalves | USBMIDI.cpp:343-363 | the two halves put together are the value's low fourteen bits |
| UsbMidi.FourteenBitRoundTrip | USBMIDI.cpp:188-264 | pitch and song position come back as the value modulo 16384 |
| UsbMidi.SongSelectPacket | USBMIDI.cpp:365-373 | the song is masked to seven bits and dispatched back as that song |
| UsbMidi.OneBytePacket | USBMIDI.cpp:375-432 | only the status byte is written, and the packet dispatches to the event that status names |
| UsbMidi.SystemEvent | USBMIDI.cpp:233-261 | a one-byte system status raises an event exactly when it is tune request, clock, start, continue, stop, active sensing or reset |
| UsbMidi.LastChunk | USBMIDI.cpp:128-135 | for at least one packet the last piece is non-empty and at most one endpoint's worth |
| UsbMidi.LastChunkFull | USBMIDI.cpp:137 | the last piece fills the endpoint exactly when the count divides into whole pieces |
| UsbMidi.SendAll | USBMIDI.cpp:128-135 | every packet is handed over in order, and the final `sent` is the size of the last piece |
| UsbMidi.WritePacketsAsWritten | USBMIDI.cpp:116-143 | nothing is sent when not connected or the buffer is null; otherwise every packet goes, and the zero-length flush never happens |
| UsbMidi.WritePackets | USBMIDI.cpp:116-143 | the same delivery, and a flush exactly when the last piece filled the endpoint |
| UsbMidi.ReadPackets | USBMIDI.cpp:149-160 | 0 for a null buffer; otherwise exactly `len` packets, the next ones of the unread packets followed by what the host sends, with the rest left unread in order |
| UsbMidi.ReadStep | USBMIDI.cpp:154-156 | each pass reads at least one packet and keeps what is read a prefix of the stream |
| UsbMidi.ReadPacket | USBMIDI.cpp:163-167 | the next packet of the stream, with the rest left to read |
| UsbMidi.Poll | USBMIDI.cpp:267-271 | every received packet is dispatched, in order, and nothing is left unread |
| UsbMidi.WritePacket | USBMIDI.cpp:112-114 | the one word is sent exactly when connected |
| UsbMidi.PendingPackets | USBMIDI.cpp:169-171 | the unsent count, when it fits in the `uint8` result |
| UsbMidi.ToInt32 | USBMIDI.cpp:77-80 | the signed value stored has the same 32 bits as the channel |
| UsbMidi.MidiObject.constructor | USBMIDI.cpp:273 | not enabled, channel 0 |
| UsbMidi.MidiObject.SetChannel | USBMIDI.cpp:77-80 | the channel is stored as a signed `int`; nothing else changes |
| UsbMidi.MidiObject.InitPart | USBMIDI.cpp:82-86 | the channel is reset to 0 and the call succeeds |
| UsbMidi.MidiObject.Begin | USBMIDI.cpp:92-103 | the channel is always set; registration happens exactly when the object was not enabled; it is enabled afterwards |
| UsbMidi.MidiObject.End | USBMIDI.cpp:105-110 | afterwards the object is not enabled |
| UsbMidi.MidiObject.SendNoteOff | USBMIDI.cpp:275-284 | the shared packet becomes the note-off packet and its word is all that is sent, when connected |
| UsbMidi.MidiObject.SendNoteOn | USBMIDI.cpp:287-296 | the same for note on |
| UsbMidi.MidiObject.SendVelocityChange | USBMIDI.cpp:300-309 | the same for polyphonic key pressure |
| UsbMidi.MidiObject.SendControlChange | USBMIDI.cpp:312-321 | the same for control change |
| UsbMidi.MidiObject.SendProgramChange | USBMIDI.cpp:323-331 | the shared packet is updated from its previous value and sent |
| UsbMidi.MidiObject.SendAfterTouch | USBMIDI.cpp:333-341 | the same for channel pressure |
| UsbMidi.MidiObject.SendPitchChange | USBMIDI.cpp:343-352 | the pitch split into two seven-bit bytes is sent |
| UsbMidi.MidiObject.SendSongPosition | USBMIDI.cpp:354-363 | the position split into two seven-bit bytes is sent |
| UsbMidi.MidiObject.SendSongSelect | USBMIDI.cpp:365-373 | the song masked to seven bits is sent |
| UsbMidi.MidiObject.SendSystem | USBMIDI.cpp:375-432 | the one-byte system message is sent with only its status updated |
| MidiDevice.StringDescriptor | usb_midi_device.c:670-677 | a descriptor is served exactly for indices below `N_STRING_DESCRIPTORS`, and it is the one at that index |
| MidiDevice.HexChar | usb_midi_device.c:702 | digits 0-9 become '0'-'9' and 10-15 become 'A'-'F' |
| MidiDevice.HexCharRoundTrip | usb_midi_device.c:700-702 | every nibble is recovered from its digit, and no digit is ':' or the SysEx end byte |
| MidiDevice.HexPair | usb_midi_device.c:700-702 | two digits, high nibble first, that spell the byte |
| MidiDevice.HexDigits | usb_midi_device.c:735-746 | two digits per payload byte |
| MidiDevice.RecordText | usb_midi_device.c:711-734 | ':' then eight header digits then two per payload byte |
| MidiDevice.RecordHeader | usb_midi_device.c:711-733 | the nine header characters start with ':' |
| MidiDevice.Checksum | usb_midi_device.c:750 | the checksum is zero exactly when the sum's low byte is |
| MidiDevice.ChecksumCancels | usb_midi_device.c:750 | adding the checksum to the sum clears its low byte, as a reader of the record checks it |
| MidiDevice.Framed | usb_midi_device.c:735-746 | fewer than three characters follow the last marker and no character is lost |
| MidiDevice.FramedThird | usb_midi_device.c:735-746 | the count since the last marker is the character count modulo 3 |
| MidiDevice.FramedFirst | usb_midi_device.c:711 | the packing starts with the first character |
| MidiDevice.FinishLayout | usb_midi_device.c:747-763 | where the checksum digits, the closing marker and the 0xF7 end byte go for each count of trailing characters |
| MidiDevice.TextThird | usb_midi_device.c:734-746 | after the header the trailing count depends only on the payload's digits |
| MidiDevice.NineMore | usb_midi_device.c:734 | nine header characters do not change the count modulo 3 |
| MidiDevice.HexLineFrame | usb_midi_device.c:705-764 | the line starts with ':' and ends with 0xF7, and its two digits before the end spell the two's complement of the sum's low byte |
| MidiDevice.HexLine | usb_midi_device.c:705-764 | the buffer starts with ':' and ends with the SysEx end byte 0xF7; `HexLineFrame` adds the checksum digits |
| MidiDevice.LowByteOfWrapped | usb_midi_device.c:710 | the 16-bit wrap of the running checksum keeps its low byte |
| MidiDevice.ChecksumStep | usb_midi_device.c:737 | each payload byte keeps the running checksum's low byte that of the sum |
| MidiDevice.FramedGroup | usb_midi_device.c:738-745 | three more characters after whole groups add one group and its marker |
| MidiDevice.HeaderFramed | usb_midi_device.c:711-733 | the nine header characters make three whole groups |
| MidiDevice.DigitsStep | usb_midi_device.c:738-745 | each payload byte adds its two digits to the packing |
| MidiDevice.HeaderGroups | usb_midi_device.c:711-733 | the header as three groups of three characters, each followed by a marker |
| MidiDevice.ChecksumOfLowByte | usb_midi_device.c:750 | `~x + 1` on a running checksum with the right low byte is the checksum of the sum |
| MidiDevice.PackPayload | usb_midi_device.c:735-746 | the payload loop produces the packing of the header and the payload digits, and its checksum has the low byte of the sum |
| MidiDevice.SysHexLine | usb_midi_device.c:705-764 | the buffer is the framed hex record, and the result is its length plus the trailing count, through `uint8_t` |
| MidiDevice.MidiPart.Unread | usb_midi_device.c:316-328 | as many unread packets as the unread count |
| MidiDevice.MidiPart.constructor | usb_midi_device.c:316-328 | buffers sized from the endpoints, nothing unread, unsent or in flight |
| MidiDevice.MidiPart.Tx | usb_midi_device.c:452-480 | nothing while a transmission is in flight; otherwise the first packets that fit the endpoint are sent, their count computed in 32 bits, and at least one for a non-empty request |
| MidiDevice.MidiPart.DataAvailable | usb_midi_device.c:482-484 | the number of unread packets |
| MidiDevice.MidiPart.Pending | usb_midi_device.c:490-492 | the unsent count, when it fits in the `uint16` result |
| MidiDevice.MidiPart.Peek | usb_midi_device.c:520-531 | the oldest `min(packets, unread)` packets are copied to the caller's buffer and nothing else in it changes |
| MidiDevice.MidiPart.Rx | usb_midi_device.c:498-515 | the same packets are copied and marked read; the rest stay unread in order; the offset returns to 0 once nothing is unread |
| MidiDevice.MidiPart.TxCallback | usb_midi_device.c:537-540 | nothing unsent and no transmission in flight |
| MidiDevice.MidiPart.RxCallback | usb_midi_device.c:542-561 | the packets of the OUT transfer become the unread packets |
| MidiDevice.MidiPart.Reset | usb_midi_device.c:620-623 | the unread and unsent counts and the offset return to 0 |
| UsbMass.CswBytes | usb_mass.c:440-451 | the CSW on the wire is 13 bytes |
| UsbMass.CswRoundTrip | usb_mass.c:440-451 | a CSW is read back from those bytes unchanged |
| UsbMass.HandlerFor | usb_mass.c:341-398 | READ(10) and WRITE(10) select exactly their own handlers, and ALLOW MEDIUM REMOVAL shares the START STOP UNIT handler |
| UsbMass.Copied | usb_mass.c:314-316 | the CBW keeps its 31-byte length after the copy |
| UsbMass.CopiedWhole | usb_mass.c:314-316 | a 31-byte packet becomes the CBW |
| UsbMass.WithSignature | usb_mass.c:163 | only the signature field changes |
| UsbMass.SetCswState | usb_mass.c:440-451 | the CSW gets its signature and status and keeps its tag and residue; the machine is in the CSW-send state exactly when sending is permitted and in error otherwise; the bytes handed over parse back to the CSW |
| UsbMass.FailShape | usb_mass.c:321-327 | a rejection stalls both endpoints, sets the sense, hands over a failed CSW without permitting it and leaves the machine in error, touching nothing else |
| UsbMass.ReceiveSpec | usb_mass.c:314-318 | the state stays well-formed |
| UsbMass.LoadTransferSpec | usb_mass.c:329-334 | the state stays well-formed |
| UsbMass.DecodeEchoes | usb_mass.c:317-318 | the CSW echoes the CBW's tag and starts its residue at the CBW's transfer length, whatever happens next |
| UsbMass.DecodeWrongLength | usb_mass.c:319-327 | a packet that is not 31 bytes stalls both endpoints, clears the CBW signature, reports a parameter-list length error and leaves a failed CSW unsent |
| UsbMass.DecodeTransferFields | usb_mass.c:329-334 | READ(10) and WRITE(10) take their block address and count from the command block, big-endian; other commands leave them as they were |
| UsbMass.DecodeAccepted | usb_mass.c:336-386 | an accepted CBW calls exactly its handler with its LUN, changing nothing else in the machine |
| UsbMass.DecodeRejected | usb_mass.c:337-411 | a rejected CBW gets the invalid-field sense for a bad LUN or command-block length under a valid signature, the invalid-command sense otherwise, and a failed CSW |
| UsbMass.TransferResidue | usb_mass.c:431-438 | the residue shrinks by the length of the data sent |
| UsbMass.InEventToIdle | usb_mass.c:246-251 | after the CSW or an error an IN event returns to idle and re-enables reception |
| UsbMass.InEventAfterData | usb_mass.c:259-262 | after the last data an IN event sends a passed CSW |
| UsbMass.OutEventPhase | usb_mass.c:269-293 | an OUT event decodes a new CBW when idle; outside the WRITE(10) data phase it is a phase error that stalls the OUT endpoint in the data-out phase and both otherwise |
| UsbMass.NoDataSetupReset | usb_mass.c:219-238 | only the exact Bulk-Only reset request succeeds, and it leaves the machine idle with a valid CBW signature; anything else changes nothing |
| UsbMass.DataSetup | usb_mass.c:186-217 | Get Max LUN succeeds exactly for the exact request and answers the low byte of `maxLun`; everything else is unsupported with no data |
| UsbMass.CopyPacketAsWritten | usb_mass.c:314-316 | the whole packet lands over the CBW and whatever follows it |
| UsbMass.LongPacketOverwrites | usb_mass.c:314-316 | a packet longer than 31 bytes changes the memory past the CBW |
| UsbMass.PartDescriptor | usb_mass.c:129-135 | the interface number and both endpoint addresses are offset by the part's position, in 8-bit arithmetic; every other byte is the template's |
| UsbMass.MassBot.State | usb_mass.c:46-54 | the snapshot of the machine is well-formed |
| UsbMass.MassBot.constructor | usb_mass.c:46-54 | idle, unconnected, highest LUN 0, nothing pending and no events |
| UsbMass.MassBot.InCallback | usb_mass.c:299-301 | only the IN-pending flag is set |
| UsbMass.MassBot.OutCallback | usb_mass.c:306-309 | the packet is stored and the OUT-pending flag set, nothing else |
| UsbMass.MassBot.Abort | usb_mass.c:414-429 | the state is the abort specification's |
| UsbMass.MassBot.SetSense | usb_mass.c:323 | the sense data event is recorded |
| UsbMass.MassBot.SetCsw | usb_mass.c:440-451 | the state is the CSW specification's |
| UsbMass.MassBot.TransferDataRequest | usb_mass.c:431-438 | the state is the transfer specification's |
| UsbMass.MassBot.CopyPacket | usb_mass.c:314-316 | the CBW is the packet copied over it, never past its end |
| UsbMass.MassBot.WriteSignature | usb_mass.c:322 | the CBW with the new signature, as the decode clears it here and the reset paths restore it at usb_mass.c:163 and 232 |
| UsbMass.MassBot.Fail | usb_mass.c:321-327 | the state is the rejection specification's |
| UsbMass.MassBot.Receive | usb_mass.c:314-318 | the state is the receive specification's |
| UsbMass.MassBot.Dispatch | usb_mass.c:336-411 | the state is the dispatch specification's |
| UsbMass.MassBot.Decode | usb_mass.c:311-412 | the state is the decode specification's |
| UsbMass.MassBot.Phase | usb_mass.c:278-292 | the state is the phase-error specification's |
| UsbMass.MassBot.InEvent | usb_mass.c:242-265 | the state is the IN-event specification's |
| UsbMass.MassBot.OutEvent | usb_mass.c:267-293 | the state is the OUT-event specification's |
| UsbMass.MassBot.Loop | usb_mass.c:241-294 | the pending IN event is handled first, then the pending OUT event |
| UsbMass.MassBot.Reset | usb_mass.c:153-165 | media initialised, device attached, signature restored, idle |
| UsbMass.MassBot.SetConfiguration | usb_mass.c:167-175 | only a non-zero configuration configures the device |
| UsbMass.MassBot.ClearFeature | usb_mass.c:177-184 | both endpoints are stalled again while the CBW signature is invalid |
| UsbMass.MassBot.NoDataSetup | usb_mass.c:219-238 | the state and result are the no-data-setup specification's |
| MassStorage.DriveOf | MassStorage.cpp:33-39 | the entry holds the block count and size and the four callbacks, the initialiser doubling as the format callback |
| MassStorage.BytesDrive | MassStorage.cpp:42-45 | the byte-size overload gives whole 512-byte blocks that cover the size but for less than one block |
| MassStorage.MassPart | usb_mass.c:112-151 | one interface and two bulk endpoints, IN first |
| MassStorage.MassStorageDevice.constructor | MassStorage.cpp:51 | not enabled, every drive entry empty |
| MassStorage.MassStorageDevice.SetDrive | MassStorage.cpp:29-40 | a drive number past the table changes nothing; otherwise that entry, and only it, is replaced |
| MassStorage.MassStorageDevice.SetDriveBytes | MassStorage.cpp:42-45 | the same with `byteSize / 512` blocks of 512 bytes |
| MassStorage.MassStorageDevice.ClearDrives | MassStorage.cpp:47-49 | every entry is empty |
| MassStorage.MassStorageDevice.Begin | MassStorage.cpp:7-15 | while enabled nothing is registered again; otherwise the device holds exactly the mass-storage part and this plugin; enabled afterwards |
| MassStorage.MassStorageDevice.End | MassStorage.cpp:17-19 | the device is ended with its parts kept |
| Fat16Names.ToUpper | examples/readonlyfat16/FAT16ReadOnly.cpp:102 | only 'a' to 'z' change, each to its capital |
| Fat16Names.Upper | examples/readonlyfat16/FAT16ReadOnly.cpp:102-107 | every byte is upper-cased in place |
| Fat16Names.UpToNul | examples/readonlyfat16/FAT16ReadOnly.cpp:63-82 | a C reader sees no more than the buffer |
| Fat16Names.LastDot | examples/readonlyfat16/FAT16ReadOnly.cpp:93 | the index found is a '.' with no '.' after it, and none is found only when the name has no '.' |
| Fat16Names.Field | examples/readonlyfat16/FAT16ReadOnly.cpp:101-109 | a field is exactly its width |
| Fat16Names.To83 | examples/readonlyfat16/FAT16ReadOnly.cpp:84-110 | the name field is 11 bytes, all spaces for the empty name |
| Fat16Names.To83NotNul | examples/readonlyfat16/FAT16ReadOnly.cpp:84-110 | a name field never starts with NUL, so the added entry counts as used |
| Fat16Names.TrimmedLength | examples/readonlyfat16/FAT16ReadOnly.cpp:76-77 | the base length past which only spaces remain, ending on a non-space |
| Fat16Names.ExtLength | examples/readonlyfat16/FAT16ReadOnly.cpp:72 | at most three extension bytes, none a space, stopping at the first space |
| Fat16Names.ExtTail | examples/readonlyfat16/FAT16ReadOnly.cpp:67-75 | no extension exactly when its first byte is a space |
| Fat16Names.RoundTripFrom83To83 | examples/readonlyfat16/FAT16ReadOnly.cpp:63-110 | from83Filename undoes to83Filename on a short upper-case name with a one-to-eight character base and an extension of up to three |
| Fat16Names.From83To83 | examples/readonlyfat16/FAT16ReadOnly.cpp:63-110 | the same round trip, for every short name |
| Fat16Names.From83Fields | examples/readonlyfat16/FAT16ReadOnly.cpp:63-82 | reading back a padded base and extension gives the name joined with a dot |
| Fat16Names.JoinedParts | examples/readonlyfat16/FAT16ReadOnly.cpp:93-107 | to83Filename finds the base and extension a short name was joined from |
| Fat16Names.FindLastDot | examples/readonlyfat16/FAT16ReadOnly.cpp:93-98 | the backwards scan finds the last '.', or -1 when there is none |
| Fat16Names.FillField | examples/readonlyfat16/FAT16ReadOnly.cpp:101-109 | the field holds the upper-cased bytes, space padded, and nothing around it changes |
| Fat16Names.FillExtension | examples/readonlyfat16/FAT16ReadOnly.cpp:92-105 | the extension field and the base length the scan leaves |
| Fat16Names.To83Filename | examples/readonlyfat16/FAT16ReadOnly.cpp:84-110 | the method fills the 11-byte name field To83 describes |
| Fat16Names.WriteExtension | examples/readonlyfat16/FAT16ReadOnly.cpp:67-75 | the extension part of the output as a C string |
| Fat16Names.TrimBase | examples/readonlyfat16/FAT16ReadOnly.cpp:76-77 | the backwards scan stops at the trimmed base length |
| Fat16Names.CopyBase | examples/readonlyfat16/FAT16ReadOnly.cpp:80 | the trimmed base is copied to end just before the extension |
| Fat16Names.From83Assembled | examples/readonlyfat16/FAT16ReadOnly.cpp:79-81 | the returned string is the trimmed base followed by the extension part |
| Fat16Names.From83 | examples/readonlyfat16/FAT16ReadOnly.cpp:63-82 | at most 12 bytes, none of them NUL, starting with the name's first byte when that is neither a space nor NUL; `From83To83` gives the round trip |
| Fat16Names.From83Filename | examples/readonlyfat16/FAT16ReadOnly.cpp:63-82 | the method returns the C string From83 describes |
| Fat16.Layout | examples/readonlyfat16/FAT16ReadOnly.cpp:5-17 | the layout constants are the values the macros derive from 16384 sectors, 224 root entries and 2-sector clusters |
| Fat16.ZeroEntry | examples/readonlyfat16/FAT16ReadOnly.cpp:163 | a zeroed entry has a NUL first name byte and size 0 |
| Fat16.EntryBytes | examples/readonlyfat16/FAT16ReadOnly.h:10-20 | a packed entry is 32 bytes |
| Fat16.EntryLayout | examples/readonlyfat16/FAT16ReadOnly.h:10-20 | the name, attributes, both cluster halves and the size sit at their packed offsets, little-endian |
| Fat16.ScanLen | examples/readonlyfat16/FAT16ReadOnly.cpp:113-122 | the scans stop at the first entry whose name starts with NUL or at the limit |
| Fat16.ClusterCountCovers | examples/readonlyfat16/FAT16ReadOnly.cpp:120 | the clusters of a file cover its size with less than one cluster to spare |
| Fat16.ClustersBeforeMonotone | examples/readonlyfat16/FAT16ReadOnly.cpp:113-122 | clusters owned by earlier live entries only grow, and each live file's clusters fit before the next |
| Fat16.AssignUpTo | examples/readonlyfat16/FAT16ReadOnly.cpp:113-122 | the table keeps its length |
| Fat16.WithClusters | examples/readonlyfat16/FAT16ReadOnly.cpp:113-122 | the table keeps its length |
| Fat16.StartClusterStep | examples/readonlyfat16/FAT16ReadOnly.cpp:116-120 | the 16-bit counter advances by each live file's cluster count and skips deleted and empty entries |
| Fat16.WithClustersKeepsScan | examples/readonlyfat16/FAT16ReadOnly.cpp:113-122 | updateClusters changes no name or size, so later scans see the same files |
| Fat16.StartClusterExact | examples/readonlyfat16/FAT16ReadOnly.cpp:114-120 | without wrap-around a file's start cluster is 2 plus the clusters before it |
| Fat16.StartClustersDisjoint | examples/readonlyfat16/FAT16ReadOnly.cpp:113-122 | live files get start clusters whose ranges do not overlap |
| Fat16.DataLookupUnfold | examples/readonlyfat16/FAT16ReadOnly.cpp:138-146 | one step of the readDataSector loop |
| Fat16.DataLookup | examples/readonlyfat16/FAT16ReadOnly.cpp:138-146 | a sector handed to the reader belongs to a live entry of the scanned part of the table, and its offset is at most the data sector and below 65536; `DataSectorOwner` says which entry and offset |
| Fat16.DataCountersExact | examples/readonlyfat16/FAT16ReadOnly.cpp:141-145 | without wrap-around the 16-bit size and 32-bit sector counter are exact |
| Fat16.DataLookupStep | examples/readonlyfat16/FAT16ReadOnly.cpp:138-146 | one entry of the loop with an exact counter |
| Fat16.DataLookupHit | examples/readonlyfat16/FAT16ReadOnly.cpp:138-146 | a sector inside a file's chain is asked of the reader as that file's sector |
| Fat16.DataLookupPast | examples/readonlyfat16/FAT16ReadOnly.cpp:138-147 | a sector past every file asks the reader for nothing |
| Fat16.DataSectorOwner | examples/readonlyfat16/FAT16ReadOnly.cpp:135-148 | a data sector in file j's clusters is that file's sector at its offset, and a sector past every file stays blank |
| Fat16.FatBase | examples/readonlyfat16/FAT16ReadOnly.cpp:178-184 | 256 entries per FAT sector; what it computes is stated by `FatBytesBase` |
| Fat16.FatFill | examples/readonlyfat16/FAT16ReadOnly.cpp:185-209 | 256 entries per FAT sector; what it computes is stated by `FatFillChains` |
| Fat16.FatBytes | examples/readonlyfat16/FAT16ReadOnly.cpp:195-204 | 512 bytes for 256 entries |
| Fat16.FatBytesUpdate | examples/readonlyfat16/FAT16ReadOnly.cpp:195-204 | writing one entry changes exactly its two bytes, low byte first |
| Fat16.FatBytesEntry | examples/readonlyfat16/FAT16ReadOnly.cpp:195-204 | each entry is read back at its offset |
| Fat16.FatBytesBase | examples/readonlyfat16/FAT16ReadOnly.cpp:178-184 | FAT sector 0 starts F8 FF FF FF and every other starts zeroed |
| Fat16.FatWindow | examples/readonlyfat16/FAT16ReadOnly.cpp:185-186 | FAT sector s covers clusters 256 s to 256 s + 255 |
| Fat16.FatFillNext | examples/readonlyfat16/FAT16ReadOnly.cpp:189-209 | one entry of readFatSector's scan |
| Fat16.FatFillStep | examples/readonlyfat16/FAT16ReadOnly.cpp:189-209 | each scanned file writes its chain into the window and nothing else |
| Fat16.FatFillChains | examples/readonlyfat16/FAT16ReadOnly.cpp:189-209 | after the scan each entry of the window is the chain value of its cluster |
| Fat16.FatDescribesChains | examples/readonlyfat16/FAT16ReadOnly.cpp:177-210 | each FAT entry of a file's cluster points to the next cluster, or is 0xFFFF at the chain's end, and clusters past every file are free |
| Fat16.ChainValueAt | examples/readonlyfat16/FAT16ReadOnly.cpp:193-204 | the chain value of a cluster in file j is the next cluster or end of chain |
| Fat16.ChainValueFree | examples/readonlyfat16/FAT16ReadOnly.cpp:189-209 | clusters past every file are 0 |
| Fat16.FatSectorZeroHeader | examples/readonlyfat16/FAT16ReadOnly.cpp:179-184 | FAT sector 0 starts with the media descriptor and three 0xFF bytes |
| Fat16.FatSector | examples/readonlyfat16/FAT16ReadOnly.cpp:177-210 | 512 bytes; `FatDescribesChains` and `FatSectorZeroHeader` give their contents |
| Fat16.EntriesBytes | examples/readonlyfat16/FAT16ReadOnly.cpp:174 | 32 bytes per copied entry |
| Fat16.EntriesBytesAt | examples/readonlyfat16/FAT16ReadOnly.cpp:174 | each entry lands at its 32-byte slot |
| Fat16.RootDirWindow | examples/readonlyfat16/FAT16ReadOnly.cpp:168-169 | a root directory sector spans 16 entries |
| Fat16.RootDirSector | examples/readonlyfat16/FAT16ReadOnly.cpp:166-175 | 512 bytes; what it computes is stated by `RootDirSectorIs` |
| Fat16.EntriesSector | examples/readonlyfat16/FAT16ReadOnly.cpp:166-175 | 512 bytes; what it computes is stated by `EntriesSectorSlot` |
| Fat16.EntriesSectorSlot | examples/readonlyfat16/FAT16ReadOnly.cpp:167-174 | slot i holds entry a + i when it is copied and zeros otherwise |
| Fat16.RootDirSectorSlots | examples/readonlyfat16/FAT16ReadOnly.cpp:166-175 | slot i of root directory sector s holds entry 16 s + i when it is within the table and zeros otherwise |
| Fat16.RootDirSectorIs | examples/readonlyfat16/FAT16ReadOnly.cpp:168-174 | the sector holds the table's entries from the first it covers up to its end or the table's |
| Fat16.BootRecord | examples/readonlyfat16/FAT16ReadOnly.cpp:19-56 | the packed record is 37 bytes; what it computes is stated by `BootSectorDescribesLayout` |
| Fat16.BootSector | examples/readonlyfat16/FAT16ReadOnly.cpp:150-155 | the boot sector is 512 bytes; what it computes is stated by `BootSectorDescribesLayout` |
| Fat16.BootSectorDescribesLayout | examples/readonlyfat16/FAT16ReadOnly.cpp:19-56 | the BPB gives 512-byte sectors, 2-sector clusters, 1 reserved sector, 2 FATs of 32 sectors, 224 root entries and 16384 sectors, and the layout readSector serves is the one it implies; the sector ends 0x55 0xAA |
| Fat16.RegionOf | examples/readonlyfat16/FAT16ReadOnly.cpp:212-221 | FAT sectors map into one FAT's 32 sectors |
| Fat16.RegionBytes | examples/readonlyfat16/FAT16ReadOnly.cpp:212-221 | 512 bytes per region sector |
| Fat16.SectorBytes | examples/readonlyfat16/FAT16ReadOnly.cpp:212-221 | every sector served is 512 bytes |
| Fat16.SectorRead | examples/readonlyfat16/FAT16ReadOnly.cpp:212-221 | only a data sector asks the reader for anything, and then for a sector of a live entry of the table; `DataSectorOwner` says which |
| Fat16.RegionsCoverVolume | examples/readonlyfat16/FAT16ReadOnly.cpp:212-221 | sector 0 is the boot sector, 1-32 the first FAT, 33-64 the second, 65-78 the root directory and 79 on the data |
| Fat16.FatCopiesAgree | examples/readonlyfat16/FAT16ReadOnly.cpp:215-216 | both FAT copies serve the same bytes |
| Fat16.FreeSlot | examples/readonlyfat16/FAT16ReadOnly.cpp:126-128 | the first entry with a NUL name, and none exactly when every entry is used |
| Fat16.Added | examples/readonlyfat16/FAT16ReadOnly.cpp:129-130 | only entry i changes |
| Fat16.AddedFileVisible | examples/readonlyfat16/FAT16ReadOnly.cpp:124-133 | after FAT16AddFile the new entry carries the 8.3 name and size, and every later scan reaches it |
| Fat16.ScanPast | examples/readonlyfat16/FAT16ReadOnly.cpp:113-122 | a scan goes past any prefix of used entries |
| Fat16.Volume.SetRootDir | examples/readonlyfat16/FAT16ReadOnly.cpp:159-164 | the table and the count, kept as a uint16, are installed, and the entries the 32-bit memset size covers are zeroed |
| Fat16.Volume.UpdateClusters | examples/readonlyfat16/FAT16ReadOnly.cpp:113-122 | the table is the one WithClusters describes |
| Fat16.Volume.FirstUnnamed | examples/readonlyfat16/FAT16ReadOnly.cpp:126 | the index of the first entry with a NUL name |
| Fat16.Volume.AddFile | examples/readonlyfat16/FAT16ReadOnly.cpp:124-133 | no free slot leaves the table unchanged; otherwise the slot gets the 8.3 name and the size and every start cluster is recomputed |
| Fat16.Volume.ReadDataSector | examples/readonlyfat16/FAT16ReadOnly.cpp:135-148 | the sector is zeroed and the file sector the reader must supply, if any, is returned |
| Fat16.Volume.FindDataSector | examples/readonlyfat16/FAT16ReadOnly.cpp:138-147 | the loop finds the file sector DataSector describes |
| Fat16.Volume.ReadBootSector | examples/readonlyfat16/FAT16ReadOnly.cpp:150-155 | the buffer holds the boot sector and nothing around it changes |
| Fat16.Volume.ReadFatSector | examples/readonlyfat16/FAT16ReadOnly.cpp:177-210 | the buffer holds the FAT sector described by the chains |
| Fat16.Volume.ReadRootDirSector | examples/readonlyfat16/FAT16ReadOnly.cpp:166-175 | the buffer holds the root directory sector |
| Fat16.Volume.ReadSector | examples/readonlyfat16/FAT16ReadOnly.cpp:212-221 | the buffer holds the sector of its region and the data read, if any, is returned |
| Fat16.Volume.ReadSectors | examples/readonlyfat16/FAT16ReadOnly.cpp:223-228 | each slot of the buffer holds its sector, the wrapped 32-bit sector number being used, and the result is true |
| Fat16.SlotsKept | examples/readonlyfat16/FAT16ReadOnly.cpp:224-225 | writing one slot keeps the others |
| Fat16.FatHeader | examples/readonlyfat16/FAT16ReadOnly.cpp:178-184 | the buffer starts as the zeroed FAT sector with its reserved entries |
| Fat16.CopyEntries | examples/readonlyfat16/FAT16ReadOnly.cpp:174 | the entries are copied into the zeroed sector |
| Fat16.ChainPartStep | examples/readonlyfat16/FAT16ReadOnly.cpp:193-207 | one cluster of a chain inside or before the window |
| Fat16.WriteLink | examples/readonlyfat16/FAT16ReadOnly.cpp:195-204 | one FAT entry is written |
| Fat16.WriteChain | examples/readonlyfat16/FAT16ReadOnly.cpp:192-208 | the inner loop writes the chain's entries inside the window and leaves the counter at the chain's end |
| Fat16.MemoryFileReader | examples/readonlyfat16/FAT16ReadOnly.cpp:230-238 | a start past the input copies nothing and answers true; otherwise the requested sectors, clipped to the input, are copied |
| Fat16.Fill | examples/readonlyfat16/FAT16ReadOnly.cpp:137 | the range is set and nothing else changes |
| Fat16.Copy | examples/readonlyfat16/FAT16ReadOnly.cpp:152 | the range is copied and nothing else changes |
| SectorImage.SectorCount | readonlydrive/compress.py:5 | the sectors cover the input with less than one sector to spare |
| SectorImage.Padded | readonlydrive/compress.py:6 | the input followed by zeros up to whole sectors |
| SectorImage.FullCount | readonlydrive/compress.py:23-28 | the emitted table is no longer than the sector count |
| SectorImage.FullCountBounds | readonlydrive/compress.py:23-31 | the last tabled sector is populated and every sector after it is empty |
| SectorImage.PopulatedMonotone | readonlydrive/compress.py:14-27 | the count of populated sectors only grows, strictly at a populated one |
| SectorImage.StreamLength | readonlydrive/compress.py:27 | the stream is 512 bytes per populated sector |
| SectorImage.StreamPrefix | readonlydrive/compress.py:27 | the stream only ever grows at its end |
| SectorImage.StreamAt | readonlydrive/compress.py:26-27 | a populated sector sits in the stream at 512 times the number of populated sectors before it |
| SectorImage.OffsetsIncrease | readonlydrive/compress.py:26 | the offsets of populated sectors strictly increase, 512 apart at least |
| SectorImage.SentinelIffEmpty | readonlydrive/compress.py:9-26 | a table entry is `IMAGE_EMPTY_SECTOR` exactly when its sector is empty, so no offset is mistaken for it |
| SectorImage.FetchByte | readonlydrive/compress.py:40-45 | a byte past the table is 0 |
| SectorImage.SectorData | readonlydrive/compress.py:47-54 | a fetched sector is 512 bytes |
| SectorImage.SectorDataIsBytes | readonlydrive/compress.py:40-54 | fetching a sector agrees with fetching its bytes one at a time |
| SectorImage.EncodedIsWellFormed | readonlydrive/compress.py:14-38 | an encoded image's table and stream are consistent for the decoders |
| SectorImage.RoundTrip | readonlydrive/compress.py:3-45 | every byte of the padded input is fetched back unchanged from the encoded image |
| SectorImage.ScanSector | readonlydrive/compress.py:15-19 | the scan says empty exactly when all 512 bytes are zero |
| SectorImage.ProgressEmpty | readonlydrive/compress.py:20-21 | an empty sector adds only the sentinel |
| SectorImage.ProgressFull | readonlydrive/compress.py:22-27 | a populated sector is recorded at the stream's length and appended to it |
| SectorImage.Compress | readonlydrive/compress.py:3-38 | the encoder fails exactly when the stream would reach 0xFFFF bytes before a populated sector; otherwise its output is the encoding of the input |
| SectorImage.FitsExtend | readonlydrive/compress.py:24-25 | a sector that passes the size check keeps the image within bounds |
| SectorImage.NotFits | readonlydrive/compress.py:24-25 | a populated sector met with a stream of 0xFFFF bytes or more makes the image too big |
| SectorImage.FetchSector | readonlydrive/compress.py:47-54 | the caller's buffer receives exactly the sector's 512 bytes |
| UsbX360.StringDescriptor | usb_x360.c:659-666 | a descriptor is served exactly for indices below 4, and it is the one at that index |
| UsbX360.X360Port.constructor | usb_x360.c:311-319 | nothing in flight, unsent or unread, protocol value 0 |
| UsbX360.X360Port.Tx | usb_x360.c:433-457 | 0 while a packet is in flight; otherwise the length clamped to the packet size is queued, recorded as unsent and returned, and the endpoint is busy |
| UsbX360.X360Port.TxComplete | usb_x360.c:500-503 | nothing unsent and nothing in flight; the rest is unchanged |
| UsbX360.X360Port.Reset | usb_x360.c:590-595 | all transfer counters cleared, the protocol value kept |
| UsbX360.X360Port.DataSetup | usb_x360.c:597-627 | the HID descriptor exactly for its standard GET_DESCRIPTOR, the protocol byte exactly for the class GET_PROTOCOL, unsupported otherwise |
| UsbX360.X360Port.NoDataSetup | usb_x360.c:629-639 | the class SET_PROTOCOL succeeds and stores `wValue0`, which GET_PROTOCOL then reports; every other request is unsupported and changes nothing |
| XBox360.InitialReport | XBox360.h:31 | a new report is 20 bytes starting 00 14 |
| XBox360.ButtonSlot | x360.cpp:85-96 | a slot exactly for buttons 1 to 16: byte 2 for 1 to 8 and byte 3 for 9 to 16, bit `(n - 1) % 8` |
| XBox360.WithButton | x360.cpp:85-96 | the report keeps its size; what it computes is stated by `ButtonOnly` |
| XBox360.ButtonOnly | x360.cpp:85-96 | a button in 1 to 16 sets or clears exactly its bit, the rest of the report unchanged; any other number changes nothing |
| XBox360.WithAxis | x360.cpp:100-126 | the report keeps its size; what it computes is stated by `AxisRoundTrip` |
| XBox360.AxisRoundTrip | x360.cpp:100-126 | the axis reads back as the little-endian `int16_t` written, and only its two bytes change |
| XBox360.LowByteOfU16 | x360.cpp:102 | the 16-bit cast keeps the low byte |
| XBox360.PositionsReadBack | x360.cpp:128-144 | both sticks read back after `position` and `positionRight`, and bytes outside 6 to 13 are unchanged |
| XBox360.HIDXBox360.constructor | x360.cpp:45-47 | the report is the initial one, automatic reporting, not enabled, nothing sent |
| XBox360.HIDXBox360.Begin | x360.cpp:49-54 | enabled afterwards, the driver enabled only when it was not |
| XBox360.HIDXBox360.End | x360.cpp:56-61 | disabled afterwards, the driver disabled only when it was enabled |
| XBox360.HIDXBox360.SetManualReportMode | x360.cpp:63-65 | the mode is stored and nothing else changes |
| XBox360.HIDXBox360.GetManualReportMode | x360.cpp:67-69 | the mode the last `SetManualReportMode` stored |
| XBox360.HIDXBox360.Send | x360.cpp:79-83 | the whole report goes out, then a zero-length packet |
| XBox360.HIDXBox360.SafeSendReport | x360.cpp:71-77 | the report goes out only when not in manual mode |
| XBox360.HIDXBox360.Button | x360.cpp:85-98 | the report after the button change, then a safe send |
| XBox360.HIDXBox360.Axis | x360.cpp:100-126 | the report after the axis change, then a safe send |
| XBox360.HIDXBox360.X | x360.cpp:100-105 | bytes 6-7 take the value, then a safe send |
| XBox360.HIDXBox360.Y | x360.cpp:107-112 | bytes 8-9 take the value, then a safe send |
| XBox360.HIDXBox360.XRight | x360.cpp:114-119 | bytes 10-11 take the value, then a safe send |
| XBox360.HIDXBox360.YRight | x360.cpp:121-126 | bytes 12-13 take the value, then a safe send |
| XBox360.HIDXBox360.Position | x360.cpp:128-135 | both axes of the left stick, then one safe send |
| XBox360.HIDXBox360.PositionRight | x360.cpp:137-144 | both axes of the right stick, then one safe send |
| XBox360.HIDXBox360.SliderLeft | x360.cpp:146-150 | byte 4 takes the value, then a safe send |
| XBox360.HIDXBox360.SliderRight | x360.cpp:152-156 | byte 5 takes the value, then a safe send |
| X360Controllers.SlicesDisjoint | usb_x360w.c:384-393 | the receive slices handed to `n` controllers lie inside the `n * RX_EPSIZE` byte area and do not overlap |
| UsbCore.ProtocolData | usb_x360w.c:505-512 | the GET_PROTOCOL data stage is one byte, the low byte of the stored 32-bit protocol value (the HID part sends it the same way, usb_hid.c:479) |
| UsbCore.ProtocolRoundTrip | usb_x360w.c:553-561 | a protocol stored from `wValue0` is the byte GET_PROTOCOL reports back |
| X360Controllers.WithBit7 | usb_x360w.c:368 | setting bit 7 of `x` gives the IN bit and keeps the low seven bits of `x` |
| X360Controllers.Patched | usb_x360w.c:361-369 | a patched copy has the template's size; what it computes is stated by `PatchedFields` |
| X360Controllers.PatchedFields | usb_x360w.c:361-369 | the interface number is `startInterface + i`, both endpoint descriptors and both vendor references name the controller's endpoints, every other byte is the template's |
| X360Controllers.TxEndpoint | usb_x360w.c:97 | controller `i`'s transmit endpoint is the first of its pair in the endpoint table |
| X360Controllers.RxEndpoint | usb_x360w.c:95 | controller `i`'s receive endpoint is the second of its pair, after the transmit endpoint |
| X360Controllers.Config | usb_x360w.c:359-372 | the part descriptor of n controllers: the template patched for each controller, back to back; empty for none, and its last template-sized piece is the copy patched for controller n - 1 |
| X360Controllers.ConfigLength | usb_x360w.c:359-372 | `Config`, the descriptor of `n` controllers, is `n` template sizes long |
| X360Controllers.ConfigCopy | usb_x360w.c:359-372 | copy `i`, at offset `i` template sizes, is the template patched for controller `i` |
| X360Controllers.ControllerTable.constructor | usb_x360w.c:334-355 | every controller zero, the maximum number of controllers, and interface, endpoint and descriptor sizes for all of them |
| X360Controllers.ControllerTable.Clear | usb_x360w.c:379-382 | every controller zeroed and the count back at the maximum, the part's sizes unchanged |
| X360Controllers.ControllerTable.Initialize | usb_x360w.c:384-398 | the first `n` controllers get consecutive receive slices and lose their callbacks, the others are unchanged, and the part is sized for `n` controllers |
| X360Controllers.ControllerTable.SetRumble | usb_x360w.c:405-407 | only controller `c`'s rumble callback changes |
| X360Controllers.ControllerTable.SetLed | usb_x360w.c:409-411 | only controller `c`'s LED callback changes |
| X360Controllers.ControllerTable.IsTransmitting | usb_x360w.c:413-415 | true exactly when controller `c` has a transfer in flight |
| X360Controllers.ControllerTable.Tx | usb_x360w.c:421-447 | 0 and no change while controller `c` transmits; otherwise the length clamped to TX_EPSIZE is queued on that controller alone, which becomes busy, and returned |
| X360Controllers.ControllerTable.TxComplete | usb_x360w.c:497-502 | only controller `c` changes: nothing unsent, not transmitting |
| X360Controllers.ControllerTable.ProtocolReply | usb_x360w.c:521-551 | a reply exactly for the class GET_PROTOCOL, carrying the protocol of the controller behind the interface |
| X360Controllers.ControllerTable.NoDataSetup | usb_x360w.c:553-561 | on any interface; SET_PROTOCOL exactly succeeds and stores `wValue0` for the controller behind the interface, which GET_PROTOCOL then reports; anything else is unsupported and changes nothing |
| X360Controllers.ControllerTable.Reset | usb_x360w.c:563-570 | the transmit state of the controllers in use is cleared, the others are unchanged |
| X360Controllers.WritePartDescriptor | usb_x360w.c:359-372 | the first `n` template sizes of `out` become the descriptor of `n` controllers, the rest is untouched |
| X360Controllers.WriteNext | usb_x360w.c:361-369 | one loop round: with the first `i` copies in place, copy `i` is written after them and nothing past it changes |
| X360Controllers.WriteCopy | usb_x360w.c:361-369 | the copy at `at` is the patched template and no other byte of `out` changes |
| UsbX360W.LayoutWellLaid | usb_x360w.c:220-226 | the wireless template is 43 bytes and its patched offsets lie inside it and apart |
| UsbX360W.NewTable | usb_x360w.c:334-355 | a fresh table of zero controllers at the maximum count, sized for the wireless copy |
| UsbX360W.PartDescriptor | usb_x360w.c:359-372 | the part descriptor written is the wireless template patched once per controller in use; the rest of `out` is untouched |
| UsbX360W.DescriptorCopy | usb_x360w.c:361-369 | at offset `43 i` the interface number is `startInterface + i`, and the endpoint addresses and the vendor references at bytes 5 and 13 name controller `i`'s endpoints |
| UsbX360W.RxCalls | usb_x360w.c:449-491 | at most one callback: a 12-byte packet 00 00 calls the LED callback with byte 3, one 00 01 the rumble callback with bytes 5 and 6, each only when set; other packets call nothing |
| UsbMultiX360.LayoutWellLaid | usb_multi_x360.c:220-226 | the wired template is 40 bytes and its patched offsets lie inside it and apart |
| UsbMultiX360.NewTable | usb_multi_x360.c:333-355 | a fresh table of zero controllers at the maximum count, sized for the wired copy |
| UsbMultiX360.PartDescriptor | usb_multi_x360.c:358-371 | the part descriptor written is the wired template patched once per controller in use; the rest of `out` is untouched |
| UsbMultiX360.DescriptorCopy | usb_multi_x360.c:360-368 | at offset `40 i` the interface number is `startInterface + i`, and the endpoints and the vendor references at bytes 6 and 13 name controller `i`'s endpoints |
| UsbMultiX360.RxCalls | usb_multi_x360.c:448-482 | at most one callback: a 3-byte packet 01 03 calls the LED callback with byte 2, an 8-byte packet 00 08 the rumble callback with bytes 3 and 4, each only when set; other packets call nothing |
| XBox360W.InitialReport | USBXBox360W.h:44 | a new report is well shaped, all zero but `length`, which is 19 |
| XBox360W.Encode | USBXBox360W.h:26-40 | the packed image is 29 bytes |
| XBox360W.Decode | USBXBox360W.h:26-40 | a 29-byte image decodes to a well-shaped report |
| XBox360W.DecodeEncode | USBXBox360W.h:26-40 | every report survives its own image |
| XBox360W.EncodeDecode | USBXBox360W.h:26-40 | every 29-byte image is the image of the report it holds |
| XBox360W.ButtonOnly | USBXBox360W.cpp:77-86 | for buttons 1 to 16 only bit `n - 1` is set or cleared; other numbers change nothing |
| XBox360W.WithButton | USBXBox360W.cpp:77-86 | for buttons 1 to 16 bit `n - 1` ends set exactly when `val` is true; other numbers leave the buttons unchanged; `ButtonOnly` adds that no other bit changes |
| XBox360W.ConnectHeader | USBXBox360W.cpp:45-49 | the connection event is two bytes, 08 then 80 exactly when connected |
| XBox360W.Transmitted | USBXBox360W.cpp:26-35 | nothing goes out unless the first wait succeeds; then the data, followed by a zero-length packet exactly when the second wait succeeds |
| XBox360W.SentFields | USBXBox360W.cpp:37-43 | the image sent carries the data header and the buttons and axes as written |
| XBox360W.USBXBox360WController.constructor | USBXBox360W.h:72-74 | the initial report, the given controller, automatic reporting, nothing sent |
| XBox360W.USBXBox360WController.SetController | USBXBox360W.h:51-53 | only the controller number changes |
| XBox360W.USBXBox360WController.SendData | USBXBox360W.cpp:26-35 | the packets that reach `x360w_tx` are appended to the log, nothing else changes |
| XBox360W.USBXBox360WController.Send | USBXBox360W.cpp:37-43 | the data header is set and the image of the whole report is sent |
| XBox360W.USBXBox360WController.Connect | USBXBox360W.cpp:45-49 | the first two header bytes become the connection event, which is sent |
| XBox360W.USBXBox360WController.SetManualReportMode | USBXBox360W.cpp:64-66 | the mode is stored and nothing else changes |
| XBox360W.USBXBox360WController.SafeSendReport | USBXBox360W.cpp:72-75 | a send exactly when not in manual mode |
| XBox360W.USBXBox360WController.GetManualReportMode | USBXBox360W.cpp:68-70 | the mode the last `SetManualReportMode` stored |
| XBox360W.USBXBox360WController.Button | USBXBox360W.cpp:77-86 | the buttons become the masked update, every other field is kept, then a safe send |
| XBox360W.USBXBox360WController.Buttons | USBXBox360W.cpp:88-92 | the buttons are replaced, then a safe send |
| XBox360W.USBXBox360WController.X | USBXBox360W.cpp:94-98 | `x` takes the value, then a safe send |
| XBox360W.USBXBox360WController.Y | USBXBox360W.cpp:100-104 | `y` takes the value, then a safe send |
| XBox360W.USBXBox360WController.XRight | USBXBox360W.cpp:106-110 | `rx` takes the value, then a safe send |
| XBox360W.USBXBox360WController.YRight | USBXBox360W.cpp:112-116 | `ry` takes the value, then a safe send |
| XBox360W.USBXBox360WController.Position | USBXBox360W.cpp:118-123 | both left axes, then one safe send |
| XBox360W.USBXBox360WController.PositionRight | USBXBox360W.cpp:125-130 | both right axes, then one safe send |
| XBox360W.USBXBox360WController.SliderLeft | USBXBox360W.cpp:132-136 | the left slider takes the value, then a safe send |
| XBox360W.USBXBox360WController.SliderRight | USBXBox360W.cpp:138-142 | the right slider takes the value, then a safe send |
| XBox360W.USBXBox360WController.SetRumbleCallback | USBXBox360W.cpp:51-53 | only this controller's rumble hook in the receiver's table changes |
| XBox360W.USBXBox360WController.SetLedCallback | USBXBox360W.cpp:55-57 | only this controller's LED hook in the receiver's table changes |
| XBox360W.USBXBox360WController.Stop | USBXBox360W.cpp:59-62 | both hooks of this controller are removed, nothing else in the table changes |
| MultiXBox360.ReportPackets | USBMultiXBox360.cpp:35-42 | the report goes out at once, followed by a zero-length packet exactly when the endpoint frees up |
| MultiXBox360.Delivered | USBMultiXBox360.cpp:72-75 | nothing while the endpoint stays busy, otherwise the report and perhaps its flush |
| MultiXBox360.WithButtons | USBMultiXBox360.cpp:89-93 | bytes 2 and 3 hold the mask little-endian and no other byte changes |
| MultiXBox360.USBXBox360Controller.constructor | USBMultiXBox360.h:28-30 | a fresh 20-byte report 00 14 00…, automatic reporting, nothing sent |
| MultiXBox360.USBXBox360Controller.SetController | USBMultiXBox360.h:35-37 | only the controller number changes |
| MultiXBox360.USBXBox360Controller.SendReport | USBMultiXBox360.cpp:35-42 | the report, then the flush when the endpoint frees up, is appended to the log |
| MultiXBox360.USBXBox360Controller.Send | USBMultiXBox360.cpp:72-75 | a report once the endpoint is free |
| MultiXBox360.USBXBox360Controller.SafeSendReport | USBMultiXBox360.cpp:65-70 | a send exactly when not in manual mode |
| MultiXBox360.USBXBox360Controller.GetManualReportMode | USBMultiXBox360.cpp:61-63 | the mode the last `SetManualReportMode` stored |
| MultiXBox360.USBXBox360Controller.SetManualReportMode | USBMultiXBox360.cpp:57-59 | the mode is stored and nothing else changes |
| MultiXBox360.USBXBox360Controller.Button | USBMultiXBox360.cpp:77-87 | the report after the button change, then a safe send |
| MultiXBox360.USBXBox360Controller.Buttons | USBMultiXBox360.cpp:89-93 | bytes 2 and 3 take the mask, then a safe send |
| MultiXBox360.USBXBox360Controller.Axis | USBMultiXBox360.cpp:95-117 | one axis written little-endian at its offset, then a safe send |
| MultiXBox360.USBXBox360Controller.X | USBMultiXBox360.cpp:95-99 | bytes 6-7 take the value, then a safe send |
| MultiXBox360.USBXBox360Controller.Y | USBMultiXBox360.cpp:101-105 | bytes 8-9 take the value, then a safe send |
| MultiXBox360.USBXBox360Controller.XRight | USBMultiXBox360.cpp:107-111 | bytes 10-11 take the value, then a safe send |
| MultiXBox360.USBXBox360Controller.YRight | USBMultiXBox360.cpp:113-117 | bytes 12-13 take the value, then a safe send |
| MultiXBox360.USBXBox360Controller.Position | USBMultiXBox360.cpp:119-124 | both left axes, then one safe send |
| MultiXBox360.USBXBox360Controller.PositionRight | USBMultiXBox360.cpp:126-131 | both right axes, then one safe send |
| MultiXBox360.USBXBox360Controller.SliderLeft | USBMultiXBox360.cpp:133-137 | byte 4 takes the value, then a safe send |
| MultiXBox360.USBXBox360Controller.SliderRight | USBMultiXBox360.cpp:139-143 | byte 5 takes the value, then a safe send |
| MultiXBox360.USBXBox360Controller.SetRumbleCallback | USBMultiXBox360.cpp:44-46 | only this controller's rumble hook changes |
| MultiXBox360.USBXBox360Controller.SetLedCallback | USBMultiXBox360.cpp:48-50 | only this controller's LED hook changes |
| MultiXBox360.USBXBox360Controller.Stop | USBMultiXBox360.cpp:52-55 | both hooks of this controller are removed |
| Keyboard.AsciiMapSize | usb_hid_device.h:338-469 | the map has 128 entries |
| Keyboard.SetModifiers | Keyboard.cpp:19 | a modifier is held afterwards exactly when it was held before or is in the mask |
| Keyboard.ClearModifiers | Keyboard.cpp:64 | a modifier is held afterwards exactly when it was held before and is not in the mask |
| Keyboard.Without | Keyboard.cpp:78-82 | six slots stay six; a non-zero usage is in no slot afterwards, each slot that held it becomes 0 and every other slot is unchanged; usage 0 changes nothing |
| Keyboard.AsciiUpperCase | usb_hid_device.h:406-464 | every capital letter is its small letter's key with SHIFT, and small letters need no shift |
| Keyboard.AsciiDigits | usb_hid_device.h:390-399 | '1' to '9' are usages 0x1E to 0x26 and '0' is 0x27 |
| Keyboard.AsciiControls | usb_hid_device.h:338-371 | of the control characters only backspace, tab and line feed have keys |
| Keyboard.PrintableSections | usb_hid_device.h:372-469 | no printable section has a zero entry; DEL's is zero |
| Keyboard.AsciiPrintable | usb_hid_device.h:372-469 | a printable character has a key exactly when it is not DEL |
| Keyboard.Translate | Keyboard.cpp:16-31 | untypable exactly for a character whose map entry is zero; a non-modifier usage never carries SHIFT |
| Keyboard.FirstFree | Keyboard.cpp:39-44 | no slot exactly when no slot is zero, otherwise the first zero slot |
| Keyboard.PressKey | Keyboard.cpp:13-53 | the six slots stay six; what it computes is stated by `PressKeyHolds` and `PressKeyModifiers` |
| Keyboard.PressTranslated | Keyboard.cpp:33-52 | the six slots stay six; what it computes is stated by `PressKeyHolds` |
| Keyboard.ReleaseKey | Keyboard.cpp:58-87 | the six slots stay six; what it computes is stated by `ReleaseKeyFrees` and `ReleaseKeyModifiers` |
| Keyboard.ReleaseTranslated | Keyboard.cpp:77-86 | the six slots stay six; what it computes is stated by `ReleaseKeyFrees` |
| Keyboard.PressKeyHolds | Keyboard.cpp:13-53 | 1 and a report exactly when the key is typable and held already or given a free slot; then it is held; no held key is displaced, at most one slot filled, and no duplicates appear |
| Keyboard.PressKeyModifiers | Keyboard.cpp:18-30 | a modifier key sets its own bit, a shifted character sets left shift, and every other modifier bit is kept |
| Keyboard.ReleaseKeyFrees | Keyboard.cpp:58-87 | 1 and a report for every typable key; its usage leaves every slot, other slots are unchanged, and no duplicates appear |
| Keyboard.ReleaseKeyModifiers | Keyboard.cpp:63-74 | a modifier key clears its own bit, a shifted character clears left shift, and every other bit is kept |
| Keyboard.PressKeyIdempotent | Keyboard.cpp:33-49 | pressing a key that is already down changes nothing more |
| Keyboard.WriteRestores | Keyboard.cpp:102-110 | when the key was up, a slot free and its modifier bits clear, `write` returns 1 and leaves the report as it found it |
| Keyboard.HidKeyboard.State | usb_hid_device.h:508-513 | the report holds six key slots |
| Keyboard.HidKeyboard.constructor | usb_hid_device.h:519 | an empty report carrying the report ID, nothing sent |
| Keyboard.HidKeyboard.SendReport | usb_hid_device.cpp:159-177 | the current report is appended to what was sent |
| Keyboard.HidKeyboard.WireIsReport | usb_hid_device.cpp:179-192 | the bytes logged are the bytes the reporter transmits |
| Keyboard.HidKeyboard.Modify | Keyboard.cpp:16-31 | typable exactly when the translation exists; the modifier byte is updated and the usage returned, an untypable key leaves the report alone |
| Keyboard.HidKeyboard.Press | Keyboard.cpp:13-53 | the report, the result and the reports sent are those of `PressKey` on the old report |
| Keyboard.HidKeyboard.Place | Keyboard.cpp:39-48 | the usage goes into the first free slot, and no slot changes when none is free |
| Keyboard.HidKeyboard.Release | Keyboard.cpp:58-87 | the report, the result and the reports sent are those of `ReleaseKey` on the old report |
| Keyboard.HidKeyboard.Unplace | Keyboard.cpp:79-83 | every slot holding the non-zero usage is emptied, no other byte changes |
| Keyboard.HidKeyboard.ReleaseAll | Keyboard.cpp:89-100 | every slot and the modifiers cleared, and that report sent |
| Keyboard.HidKeyboard.Write | Keyboard.cpp:102-110 | a press then a release, returning the press's result |
| Keyboard.FirstFreeAt | Keyboard.cpp:39-44 | the slot the loop stops at is the first free one |
| Joystick.Decode | usb_hid_device.h:533-546 | the fields read out of the 13-byte report are in range |
| Joystick.Encode | usb_hid_device.h:533-546 | the report image is 13 bytes |
| Joystick.DecodeEncode | usb_hid_device.h:533-546 | every in-range set of fields survives its image, which starts with the report ID |
| Joystick.EncodeDecode | usb_hid_device.h:533-546 | every 13-byte report is the image of its fields behind its byte 0 |
| Joystick.FieldsRoundTrip | usb_hid_device.h:536-545 | the bit-field bytes 5 to 12 survive the trip through the fields |
| Joystick.DefaultBytes | usb_hid_device.h:571-580 | the default report is ID, no buttons, hat 15 and every axis at 512, which is bytes 15 32 128 0 2 8 0 0 after the buttons |
| Joystick.DefaultStores | usb_hid_device.h:571-580 | the constructor's field stores on a zeroed report give the default fields |
| Joystick.Clamp | Joystick.cpp:43 | at most 1023, the value itself when it is not above 1023 |
| Joystick.WithX | Joystick.cpp:42-48 | the report keeps its size; what it computes is stated by `XOnly` |
| Joystick.WithY | Joystick.cpp:50-56 | the report keeps its size; what it computes is stated by `YOnly` |
| Joystick.WithPosition | Joystick.cpp:58-66 | the report keeps its size; what it computes is stated by `PositionOnly` |
| Joystick.WithXrotate | Joystick.cpp:68-74 | the report keeps its size; what it computes is stated by `XrotateOnly` |
| Joystick.WithYrotate | Joystick.cpp:76-82 | the report keeps its size; what it computes is stated by `YrotateOnly` |
| Joystick.WithSliderLeft | Joystick.cpp:84-90 | the report keeps its size; what it computes is stated by `SliderLeftOnly` |
| Joystick.WithSliderRight | Joystick.cpp:92-98 | the report keeps its size; what it computes is stated by `SliderRightOnly` |
| Joystick.WithSlider | Joystick.cpp:100-107 | the report keeps its size; what it computes is stated by `SliderBoth` |
| Joystick.HatValue | Joystick.cpp:109-124 | a sector from 0 to 7, or 15 for centred |
| Joystick.WithHat | Joystick.cpp:109-124 | the report keeps its size; what it computes is stated by `HatOnly` |
| Joystick.ButtonSlot | Joystick.cpp:23-40 | a slot exactly for buttons 1 to 32: byte `1 + (n - 1) / 8`, bit `(n - 1) % 8` |
| Joystick.WithButton | Joystick.cpp:23-40 | the report keeps its size; what it computes is stated by `ButtonOnly` |
| Joystick.XOnly | Joystick.cpp:42-48 | `x` becomes the clamped value and no other field or the ID changes |
| Joystick.YOnly | Joystick.cpp:50-56 | `y` becomes the clamped value and nothing else changes |
| Joystick.PositionOnly | Joystick.cpp:58-66 | `x` and `y` become the clamped values and nothing else changes |
| Joystick.XrotateOnly | Joystick.cpp:68-74 | `rx` becomes the clamped value and nothing else changes |
| Joystick.YrotateOnly | Joystick.cpp:76-82 | `ry` becomes the clamped value and nothing else changes |
| Joystick.SliderLeftOnly | Joystick.cpp:84-90 | the left slider becomes the clamped value and nothing else changes |
| Joystick.SliderRightOnly | Joystick.cpp:92-98 | the right slider becomes the clamped value and nothing else changes |
| Joystick.SliderBoth | Joystick.cpp:100-107 | both sliders take the clamped value and nothing else changes |
| Joystick.HatOnly | Joystick.cpp:109-124 | only the hat changes, to the quantised direction |
| Joystick.HatSectors | Joystick.cpp:109-124 | centred exactly outside 0 to 337 degrees; otherwise the sector within 45 degrees of the direction, monotone in the direction |
| Joystick.ButtonOnly | Joystick.cpp:23-40 | bit `n - 1` of the buttons is set or cleared and nothing else changes; a number outside 1 to 32 changes nothing |
| Joystick.ButtonBits | usb_hid_device.h:535 | bit `j` of the little-endian buttons is bit `j % 8` of byte `1 + j / 8` |
| Joystick.Sends | Joystick.cpp:17-21 | nothing is sent exactly in manual mode |
| Joystick.HidJoystick.constructor | usb_hid_device.h:571-580 | the default fields behind the report ID, automatic reports, nothing sent |
| Joystick.HidJoystick.SetManualReportMode | Joystick.cpp:13-15 | the mode is stored and nothing is sent |
| Joystick.HidJoystick.GetManualReportMode | usb_hid_device.h:558-559 | the mode the last `SetManualReportMode` stored |
| Joystick.HidJoystick.Send | usb_hid_device.h:555-557 | the report is sent whatever the mode |
| Joystick.HidJoystick.SafeSendReport | Joystick.cpp:17-21 | the report is sent exactly outside manual mode |
| Joystick.HidJoystick.Button | Joystick.cpp:23-40 | the report after the button change, then a safe send |
| Joystick.HidJoystick.X | Joystick.cpp:42-48 | the report after the `x` change, then a safe send |
| Joystick.HidJoystick.Y | Joystick.cpp:50-56 | the report after the `y` change, then a safe send |
| Joystick.HidJoystick.Xrotate | Joystick.cpp:68-74 | the report after the `rx` change, then a safe send |
| Joystick.HidJoystick.Yrotate | Joystick.cpp:76-82 | the report after the `ry` change, then a safe send |
| Joystick.HidJoystick.SliderLeft | Joystick.cpp:84-90 | the report after the left slider change, then a safe send |
| Joystick.HidJoystick.SliderRight | Joystick.cpp:92-98 | the report after the right slider change, then a safe send |
| Joystick.HidJoystick.Slider | Joystick.cpp:100-107 | the report after both sliders change, then a safe send |
| Joystick.HidJoystick.Position | Joystick.cpp:58-66 | the report after both stick axes change, then a safe send |
| Joystick.HidJoystick.Hat | Joystick.cpp:109-124 | the report after the hat change, then a safe send |
| Mouse.WithPressed | Mouse.cpp:63-68 | a button is down after `press(b)` exactly when it was down before or is in `b` |
| Mouse.WithReleased | Mouse.cpp:70-75 | a button is down after `release(b)` exactly when it was down before and is not in `b` |
| Mouse.IsPressed | Mouse.cpp:77-82 | `isPressed(b)` holds exactly when some button of `b` is down |
| Mouse.PressedIsPressed | Mouse.cpp:63-68 | after `press(b)` every button of `b` is down and a button that was down stays down |
| Mouse.ReleasedIsNotPressed | Mouse.cpp:70-75 | after `release(b)` no button of `b` is down, and buttons sharing nothing with `b` read as before |
| Mouse.PressReleaseRestores | Mouse.cpp:63-75 | releasing what was just pressed, when none of it was down, restores the buttons |
| Mouse.MoveReport | Mouse.cpp:29-50 | five bytes: the ID, the buttons, and `x`, `y` and `wheel` as signed bytes that read back as given |
| Mouse.HidMouse.constructor | Mouse.cpp:7-9 | no buttons down |
| Mouse.HidMouse.Move | Mouse.cpp:29-50 | `Accepted(5, queued)` report bytes are taken; what the endpoint took followed by what is still queued is the old log and queue followed by those bytes; nothing is sent when none was taken; on an idle endpoint one packet of `min(epSize, queued)` goes out at once and the endpoint becomes busy; on a busy one the queue is empty on return; with an empty queue, an idle endpoint and a packet of at least five bytes the whole report leaves at once |
| Mouse.HidMouse.Offer | Mouse.cpp:44 | one `usb_hid_tx` of a five-byte report, with the same accepted count, log and endpoint cases as `Move` |
| Mouse.HidMouse.SetButtons | Mouse.cpp:52-61 | the buttons are stored; a report with no motion is offered exactly when they changed, and what the endpoint took followed by what is queued is the old log and queue followed by the accepted part of it; unchanged buttons send and queue nothing |
| Mouse.HidMouse.Press | Mouse.cpp:63-68 | the buttons of `b` are added; a report is offered exactly when that changed them, with the same log and queue equation as `SetButtons` |
| Mouse.HidMouse.Release | Mouse.cpp:70-75 | the buttons of `b` are removed; a report is offered exactly when that changed them, with the same log and queue equation as `SetButtons` |
| Mouse.HidMouse.IsPressedNow | Mouse.cpp:77-82 | true exactly when a button of `b` is down |
| Mouse.HidMouse.Click | Mouse.cpp:17-27 | a report with the buttons `b`, then one with none, leaving no button down; what the endpoint took followed by what is queued is the old log and queue followed by the accepted parts of the two reports |
| Digitizer.ButtonReports | Digitizer.cpp:21-28 | one report with the new buttons exactly when they change, none otherwise |
| Digitizer.HidDigitizer.Move | Digitizer.cpp:13-19 | both coordinates stored and the report sent |
| Digitizer.HidDigitizer.SetButtons | Digitizer.cpp:21-28 | the buttons stored, and a report exactly when they change |
| Digitizer.HidDigitizer.Press | Digitizer.cpp:30-33 | the buttons of `b` added, and a report exactly when that changed them |
| Digitizer.HidDigitizer.Release | Digitizer.cpp:35-38 | the buttons of `b` removed, and a report exactly when that changed them |
| Digitizer.HidDigitizer.IsPressedNow | Digitizer.cpp:40-45 | true exactly when a button of `b` is down |
| UsbDescribe.DescriptorConfig | examples/misc/usbdescribe.cpp:20-29 | one descriptor byte per argument |
| UsbDescribe.ConvertByte | examples/misc/usbdescribe.cpp:8-15 | an endpoint-marked value becomes its low byte moved by the endpoint start, an interface-only-marked one its low byte moved by the interface start, modulo 256; an unmarked value is its own low byte; `Relocation` relates two starts |
| UsbDescribe.Relocation | examples/misc/usbdescribe.cpp:8-15 | an endpoint-marked byte follows the endpoint start, an interface-marked one the interface start, an unmarked one neither, modulo 256 |
| UsbDescribe.ConfigRelocation | examples/misc/usbdescribe.cpp:17-30 | a descriptor built at other starts differs from the first byte by byte by exactly those moves |
| UsbDescribe.AlphaConfig | examples/misc/usbdescribe.cpp:32-35 | `alpha` has three descriptor bytes, 1 22 13 |

## Left out

- Hardware: register writes, packet-memory copies and their half-word packing loops, `usb_*_enable`/`disable`, and endpoint stall and valid calls. The model keeps only their effect on software state, and records stalls and packets sent as events or in a `sent` log.
- Interrupts and concurrency. The `millis()` timeouts are not modelled. A queue that is full or empty is drained or refilled by an explicit `Drain` or `Receive` call. An endpoint's readiness after a wait is a boolean parameter. The busy-wait inside `usb_hid_tx` and `composite_cdcacm_tx` is modelled only by its outcome: a transfer in flight (`busy`) empties the queue, an idle endpoint does not wait.
- UsbMidi.WritePackets and UsbMidi.WritePacketsAsWritten: the `USB_TIMEOUT` give-up of `writePackets` (USBMIDI.cpp:127) is not modelled. The host is assumed to keep draining the endpoint, so every packet is delivered.
- Mouse.HidMouse.Move: the wait on `usb_hid_is_transmitting` between the two `usb_hid_tx` calls is left to the interrupts, and `usb_hid_is_transmitting` is not part of this model. The second call has length 0 and returns at once, so it changes nothing.
- Static descriptor initialisers and the HID report-descriptor macros: they are data.
- `getHIDPartDescriptor` (usb_hid.c:151-159) and `getAUDIOPartDescriptor`/`getAUDIOPartDescriptor2` (usb_audio.c:414-452): they copy a static descriptor and patch its interface and endpoint bytes. Only the mass-storage, X-Box and `usbdescribe.cpp` patchers are modelled.
- Code that is not part of this model:
  - the `scsi_*` handlers and the `usb_mass_mal_*` media, whose calls become events;
  - `LglSysexHandler`, called from `midiDataRxCb`;
  - `Standard_GetDescriptorData`;
  - the FAT16 `fileReader` callback, which is a parameter.
- Headers that are not part of this model: usb_audio.h, usb_midi_device.h, usb_scsi.h and usb_x360w.h. Their constants take these values:
  - HID_BUFFER_MODE_NO_WAIT = 1, HID_BUFFER_MODE_OUTPUT = 2, MAX_HID_BUFFERS = 8;
  - USB_HID_MAX_SERIAL_NUMBER_LENGTH = 20;
  - DEFAULT_MIDI_CABLE = 0, USB_MIDI_TX_EPSIZE = 0x40, and the MIDI receive and transmit endpoint sizes as constructor parameters;
  - USB_MASS_MAX_DRIVES = 2, MAX_BULK_PACKET_SIZE = 64;
  - the SCSI opcodes and sense codes, from SPC-4 and SBC-3, with the CBW and CSW signatures from the Bulk-Only Transport specification;
  - four wireless controllers with 0x20-byte endpoints, as in usb_multi_x360.h;
  - the audio type codes, as a parameter whose codes are only assumed distinct.
- `getDeviceIDString`: it reads fixed flash addresses.
- `sendThroughSysex`: a debug path the source marks as not working.
- `usb_generic_set_info`, plugin init and stop, and `composite_cdcacm_set_hooks`, with the line-coding getters: they store pointers or settings the model never reads.
- UsbComposite.Composite.NoDataSetup: the call of the user's `iface_setup_hook` on every no-data request (usb_composite.c:1427-1431) is not modelled, because the hook is user code; "nothing else changes" speaks only of the part's own state.
- `x360_data_available`. `CompositeSerial::write(const char*)`: it forwards to `write(buf, len)`, which is modelled.
- HIDAbsMouse and Desktop.cpp: they write report structs that are not part of this model.
- The glue of the template classes `USBXBox360W`, `USBMultiXBox360` and `USBMassStorage`, and their registration, apart from what the modelled methods do.
- The host scripts send.py and receiverate.py: they do device I/O only.
- The data stage of SET_REPORT, in which the host's bytes are copied into the buffer. Only the state change is modelled.
- Digitizer.HidDigitizer.constructor: the class declaration is not part of this model, so the initial report is a parameter and the report is kept as its fields.
- MultiXBox360.USBXBox360Controller: the .cpp writes fields of a `report` that its header does not declare. It is modelled as the 20-byte `xbox360_Report` of the header, in the wired layout.
- Joystick.HidJoystick: the .cpp writes `joystick_Report`, which the header does not declare. It is modelled as the declared `joyReport`.
- Mouse.HidMouse: the two-argument reporter base that the header's constructor names is not used. `reportBuffer` is never sent, because `move` sends a local buffer, and the model does the same.
- HidDevice.HidRaw.Send: modelled as written. The reporter has ID 0, so transmission starts at byte 1 and `data[0]` never reaches the host.
- AudioDevice.SamplePeriod: requires a non-zero sample rate, because the source divides by it.
- Fat16.Volume.ReadFatSector: requires that the 224-entry scan does not index past the root-directory table. The source scans 224 entries whatever the table's size.
- UsbAudio.AudioPart.SetEPSize: the model writes the endpoint size even when no endpoint table is set (`endpoints == None`); the C (usb_audio.c:404-407) writes through `usbAUDIOPart.endpoints`, a NULL pointer until `usb_audio_init` has run, so that call is undefined there and the model's value for it is not the C's.
- Fat16.MemoryFileReader: the C function ends without a return statement on one path. The model returns `None` there. Its second requires also excludes the case where `start + numSectors*512` wraps around 32 bits to below `start`: there the C computes `end - start` as a huge unsigned length and `memcpy` overruns both buffers, which the model does not describe.
- UsbDevice.CompositeDevice.AddPart: `add(part)` falls off its end. The model leaves the returned value unspecified and states only the registry change.
- CompositeSerial.Write: modelled as written. It returns 0 whatever it sends, because `n` is never updated.
- X-Box button numbers 0 or above 32: the shift is undefined in C. The model takes them to change nothing.

## Findings

| source | as written | input that shows it | evidently intended | confidence | as-written member | corrected member |
|---|---|---|---|---|---|---|
| usb_composite.c:642-647 | `peek_ex` adds `offset` to the tail and again to the count it subtracts | ten bytes queued, offset 4, length 10: two bytes are copied where six are available; with six queued the count wraps to 2^32 - 2 | copy `min(len, queued - offset)` bytes starting `offset` past the tail | not executed | ByteRing.PeekExSkipsOffsetTwice | ByteRing.Ring.PeekAt |
| usb_composite.c:1458 | the string descriptor guard rejects only indices `> N_STRING_DESCRIPTORS` | index 3 of a three-entry table passes and reads past it | reject indices `>= N_STRING_DESCRIPTORS` | not executed | UsbComposite.StringDescriptorOverrun | UsbCore.StringDescriptorIndex |
| usb_composite.c:967 | `set_buffers` labels each buffer with the report ID of `featureBuffers[i]`, whatever the type | an output buffer with ID 2 next to a feature buffer with ID 1 gets byte 0 = 1 | label each buffer with its own report ID | not executed | UsbComposite.OutputBufferMislabelled | UsbComposite.Composite.SetBuffers |
| USBDevice.c:33 | `setString` stores the character count as the descriptor's length byte | "ab" gives a six-byte descriptor whose length byte says 2 | length byte `2 + 2n`, as section 9.6.7 of USB 2.0 requires | not executed | UsbDevice.SetStringCountExample | UsbDevice.WriteString |
| USBDevice.c:14 | `setProductId` decides on `_vendorId`, not on its argument | a non-zero `_vendorId` with argument 0 stores product ID 0 | 0 selects the default 0x0004 | not executed | UsbDevice.ProductIdZeroStored | UsbDevice.ProductIdFor |
| usb_generic.c:166 | the endpoint loop runs while `j < numEndpoints`, the running total that the loop itself increments | one part with one endpoint that fits: the loop goes on to read past the part's table | run while `j < parts[i]->numEndpoints` | not executed | UsbGeneric.OneEndpointReadsPastTable | UsbGeneric.GenericDevice.PlaceEndpoints |
| usb_audio.c:645-649 | after an odd-sized packet the receive callback stores one more byte and advances the head once more | an 11-byte packet moves the head 12 places | store and count only the packet's bytes | not executed | UsbAudio.OddPacketStoresExtraByte | UsbAudio.AudioPart.RxFrame |
| usb_audio.c:596-611 | the transmit callback sends `buffer_size` slots and moves the tail by `buffer_size`, however many bytes are queued | 3 bytes queued with `buffer_size` 8: 5 stale slots go out and the tail passes the head, so the queue then seems to hold 251 bytes | send at most the queued bytes | not executed | UsbAudio.AudioPart.TxFrameAsWritten | UsbAudio.AudioPart.TxFrame |
| USBMIDI.cpp:137 | the flush compares `sent`, a packet count of at most 16, with `USB_MIDI_TX_EPSIZE`, a byte size of 0x40 | 16 packets fill the endpoint and no zero-length packet follows | flush when the last piece filled the endpoint, at `USB_MIDI_TX_EPSIZE / 4` packets | not executed | UsbMidi.WritePacketsAsWritten | UsbMidi.WritePackets |
| usb_mass.c:314-316 | `cbw_decode` copies the whole received packet into the 31-byte CBW before it checks the length | a 64-byte packet overwrites the 33 bytes after the CBW | check the length first, or copy at most 31 bytes | not executed | UsbMass.LongPacketOverwrites | UsbMass.MassBot.CopyPacket |
