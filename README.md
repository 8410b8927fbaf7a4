# PpmController in Dafny

PpmController is firmware for an STM32F4 board that reads a PPM signal from a radio-control
receiver and presents it to a computer as a USB HID game pad. This project models the
sequential core of that firmware and proves properties of it:

- **`ReportDescriptor`** (`report_descriptor.dfy`) holds `REPORT_DESCR` byte for byte. It also
  holds enough of a HID report-descriptor parser to read the layout back: the short-item
  format and the main, global and local item state of section 6.2.2 of the USB Device Class
  Definition for HID 1.11. It proves that the descriptor is 56 bytes and reads completely into
  28 short items. It closes the two collections it opens. It declares one Input item of sixteen
  Usages, each a 16-bit field with logical range -500..500, which makes a 32-byte input report.
- **`InputReport`** (`report.dfy`) models `get_report`. It is an imperative method that fills a
  zeroed 32-byte array axis by axis, proved against a specification function `ReportBytes`.
  Each axis is computed as `(a as i16) - 1000` in wrapping 16-bit arithmetic and written
  little-endian.
- **`HidClass`** (`hid_class.dfy`) models `HIDClass`.
  - `control_in` and `control_out` are total functions from a decoded setup packet
    (section 9.3 of USB 2.0) to `Ignore | Accept(bytes) | Reject`. The class's interface
    number and endpoint never change, so a class value is all the state they need.
  - `get_configuration_descriptors` is modelled as three writes to a descriptor writer. The
    writer is a list of records plus a byte budget, and writing stops at the first failure.
- **`App`** (`app.dfy`) models `src/main.rs` without its scheduler.
  - The `report` task is a class holding `lastFrame`, `nextDeadline` and the reports handed
    to `HIDClass::write`. Each run re-arms itself one period after its scheduled instant, and
    takes the decoder's frame when there is one.
  - `ppm_falling` turns a cycle-counter reading into a microsecond timestamp. The decoder's
    input is modelled as the list of those timestamps.
- **`Wire`** (`wire.dfy`) defines the machine integer types and `Option`.

What the code does is followed where it differs from the descriptions around it:

- A standard GET_DESCRIPTOR is answered without comparing wIndex with the class's interface
  number (`src/hid.rs:102-136`).
- The comments of `REPORT_DESCR` call the sixteen axis items USAGE_MINIMUM. Their bytes
  (`0x09 nn`) are Usage items, so the model reads them as Usage items.
- GET_REPORT is answered with four zero bytes, not with the 32-byte report
  (`src/hid.rs:147-153`).

## Model

| member | source | states |
|---|---|---|
| ReportDescriptor.EncodeItem | src/hid.rs:6-35 | A well-formed short item encodes as one prefix byte followed by its data bytes |
| ReportDescriptor.ParseItem | src/hid.rs:6-35 | A short item that reads successfully ends past its prefix and within the descriptor |
| ReportDescriptor.ParseEncodedItem | src/hid.rs:6-35 | Reading an encoded short item back from any position gives the same item and skips exactly its bytes |
| ReportDescriptor.Parse | src/hid.rs:6-35 | A descriptor that parses has no collection left open |
| ReportDescriptor.ApplyItemKeepsBalance | src/hid.rs:9-34 | Applying one item fails exactly on an End Collection with no open collection; otherwise it counts one more item and keeps the collections balanced |
| ReportDescriptor.WalkKeepsBalance | src/hid.rs:9-34 | Reading items from any position keeps the collections balanced and never lowers the item count |
| ReportDescriptor.ParseClosesCollections | src/hid.rs:9-34 | Any descriptor that parses has closed as many collections as it opened |
| ReportDescriptor.UsageRunFits | src/hid.rs:12-27 | A run of n Usage items fits inside the descriptor in 2n bytes |
| ReportDescriptor.WalkUsage | src/hid.rs:12 | One Usage item only adds an item and a pending usage |
| ReportDescriptor.WalkUsageRun | src/hid.rs:12-27 | A run of n Usage items only adds n items and n pending usages |
| ReportDescriptor.AxisUsagesRun | src/hid.rs:12-27 | Bytes 10 to 41 of REPORT_DESCR are sixteen Usage items |
| ReportDescriptor.ReadGamepadHeader | src/hid.rs:7-11 | The header opens an Application and a Physical collection under Usage Page Generic Desktop, and the Game Pad usage is consumed by the first collection |
| ReportDescriptor.ReadHeaderAndUsages | src/hid.rs:7-27 | After the header and the axis usages, two collections are open and sixteen usages are pending |
| ReportDescriptor.ReadAxisGlobals | src/hid.rs:28-31 | Bytes 42 to 51 set Logical Minimum -500, Logical Maximum 500, Report Size 16 and Report Count 16 |
| ReportDescriptor.ReadInput | src/hid.rs:32 | The Input item takes the sixteen pending usages and the global state as one field |
| ReportDescriptor.ReadEndCollections | src/hid.rs:33-34 | The two End Collections close both collections and end the descriptor |
| ReportDescriptor.ReportDescrHead | src/hid.rs:7-27 | REPORT_DESCR reads through its header and usages to the expected state |
| ReportDescriptor.ReportDescrTail | src/hid.rs:28-34 | REPORT_DESCR reads from its globals to the end in the expected final state |
| ReportDescriptor.ReportDescrLayout | src/hid.rs:6-35 | REPORT_DESCR is 56 bytes and parses completely into 28 items. Two collections are opened and both are closed. It declares one Input of 16 usages, 16 bits by 16, with logical range -500..500 |
| ReportDescriptor.ReportDescrInputBits | src/hid.rs:30-31 | The input report REPORT_DESCR declares is 256 bits, or 32 bytes |
| InputReport.AsI16 | src/hid.rs:166 | `as i16` gives an i16 that is congruent to its input modulo 2^16, and equals the input when it already fits |
| InputReport.Normalize | src/hid.rs:166 | The normalised axis is an i16 congruent to the axis minus 1000 modulo 2^16 |
| InputReport.LeBytes | src/hid.rs:167 | `to_le_bytes` of an i16 is two bytes |
| InputReport.FromLeBytes | src/hid.rs:167 | Reading two little-endian bytes as an i16 gives an i16 |
| InputReport.LeBytesRoundTrip | src/hid.rs:167 | Reading back the little-endian bytes of an i16 gives the same value |
| InputReport.ReportBytes | src/hid.rs:162-171 | The report holds two bytes per axis |
| InputReport.GetReport | src/hid.rs:162-171 | Filling the zeroed 32-byte buffer axis by axis yields the specified report, which is 32 bytes long |
| InputReport.ReportBytesAppend | src/hid.rs:165-168 | One more axis appends its two bytes to the report and changes nothing before them |
| InputReport.ReportBytesAt | src/hid.rs:167 | Bytes 2i and 2i+1 of the report are the little-endian bytes of normalised axis i |
| InputReport.ReportDecodes | src/hid.rs:166-167 | A host reading field i of the report gets axis i minus 1000 in 16-bit arithmetic |
| InputReport.CenteredAxisInLogicalRange | src/hid.rs:166 | An axis in 500..1500 is reported exactly as axis minus 1000, which lies within the descriptor's logical range -500..500 |
| InputReport.CenteredReportIsZero | src/hid.rs:166-167 | Axes that are all 1000 give an all-zero report |
| InputReport.ReportMatchesDescriptor | src/hid.rs:162-163 | The report `get_report` builds is exactly as long as the input report REPORT_DESCR declares |
| HidClass.DescriptorType | src/hid.rs:105 | The descriptor type of a GET_DESCRIPTOR is the high byte of wValue |
| HidClass.NewHidClass | src/hid.rs:43-48 | A new class keeps the allocated interface and endpoint address, with 32-byte packets polled every 10 ms |
| HidClass.ReportDescrLength | src/hid.rs:109 | `REPORT_DESCR.len() as u16` is written as two bytes |
| HidClass.HidDescriptorReply | src/hid.rs:112-122 | The HID descriptor is 9 bytes, its first byte is its length, and its type is 0x21 |
| HidClass.ClassControlIn | src/hid.rs:138-158 | The class check answers exactly the class requests to this interface: GET_REPORT is accepted with four zero bytes and any other request is stalled |
| HidClass.ControlIn | src/hid.rs:99-159 | `control_in` stalls exactly the class requests to this interface other than GET_REPORT. It accepts exactly GET_DESCRIPTOR to an interface for type 0x21 or 0x22, and GET_REPORT to this interface. What it sends is stated by `HidDescriptorAnswer`, `HidDescriptorGivesReportLength`, `StandardRequests`, `ControlInIgnoresIndex` and `ClassRequests` |
| HidClass.ControlOut | src/hid.rs:83-97 | `control_out` rejects exactly the class requests to this interface and ignores every other request |
| HidClass.HidDescriptorAnswer | src/hid.rs:104-125 | A standard GET_DESCRIPTOR(0x21) to an interface is answered with exactly `09 21 01 01 00 01 22 38 00`, whatever wIndex says |
| HidClass.HidDescriptorGivesReportLength | src/hid.rs:126-130 | GET_DESCRIPTOR(0x22) is answered with REPORT_DESCR, whose length is the one the HID descriptor announces |
| HidClass.StandardRequests | src/hid.rs:102-136 | A standard request is never stalled, and is answered exactly when it is GET_DESCRIPTOR to an interface for type 0x21 or 0x22 |
| HidClass.ControlInIgnoresIndex | src/hid.rs:102-136 | The answer to a standard request depends neither on wIndex, nor on wLength, nor on the endpoint |
| HidClass.ClassRequests | src/hid.rs:139-158 | A class request to this interface is stalled unless it is GET_REPORT, which is accepted with four zero bytes. Class requests to another interface or recipient are ignored |
| HidClass.GetReportAnswerIsShort | src/hid.rs:147-153 | The GET_REPORT answer is shorter than the input report the endpoint carries |
| HidClass.RawRecordBytes | src/hid.rs:65-76 | A raw descriptor is its payload after a length byte that counts the whole descriptor |
| HidClass.HidDescriptorPayload | src/hid.rs:67-75 | The HID descriptor payload written to the configuration is 7 bytes |
| HidClass.Write | src/hid.rs:57-78 | A writer call appends its record exactly when the record fits in the free space, and otherwise fails and leaves the writer unchanged. Either way, written bytes plus free bytes stay the same |
| HidClass.ConfigurationRecords | src/hid.rs:57-78 | The three records are this class's interface with class 0x03 (HID), subclass 0x00 and protocol 0x05 (game pad), the 0x21 descriptor with the HID payload, and the report endpoint, 25 bytes in all |
| HidClass.GetConfigurationDescriptors | src/hid.rs:56-81 | Written bytes plus free bytes stay the same across the three writes. Which records are written is stated by `ConfigurationDescriptorsWritten` |
| HidClass.ConfigurationDescriptorsWritten | src/hid.rs:56-81 | The interface, HID and endpoint records are appended in order exactly when at least 25 bytes are free; otherwise the call fails after appending the interface record only with 9 to 17 bytes free, the interface and HID records with 18 to 24, and nothing with fewer than 9 |
| HidClass.ConfigurationHidDescriptorMatchesControlIn | src/hid.rs:65-76 | The HID descriptor in the configuration is byte for byte the one GET_DESCRIPTOR(0x21) returns |
| HidClass.EndpointHoldsOneReport | src/hid.rs:46 | The 32-byte endpoint packet holds exactly the input report REPORT_DESCR declares |
| App.AddCycles | src/main.rs:140 | Adding cycles to an instant wraps around the 32-bit cycle counter |
| App.InitialState | src/main.rs:107-121 | `init` holds the initial frame and schedules the first run one period after start-up |
| App.Axes | src/main.rs:158 | The report uses sixteen channels |
| App.Sent | src/main.rs:156-160 | Each run writes one 32-byte report |
| App.Tick | src/main.rs:139-149 | A run re-arms one period after its scheduled deadline, on the 32-bit counter, and takes the decoder's frame exactly when there is one, unchanged, keeping the old frame otherwise |
| App.LatestFrame | src/main.rs:143-149 | The result is the last frame the decoder returned, or the fallback frame when it returned none |
| App.Run | src/main.rs:136-149 | After k runs the next deadline is start + (k+1)·84 000 on the 32-bit counter, however late each run started. The frame held is the decoder's newest frame, unchanged and never merged, or the initial frame if the decoder has returned none |
| App.SentDependsOnAxesOnly | src/main.rs:156-160 | Channels 16 to 19 and the channel count never affect the bytes sent |
| App.InitialFrameReports400 | src/main.rs:118-121 | Until the decoder returns a frame, every axis of every report reads +400 |
| App.ReportTask.constructor | src/main.rs:107-121 | The task starts with the initial frame, the first deadline, and nothing written |
| App.ReportTask.Report | src/main.rs:136-164 | A run re-arms one period after its scheduled deadline. It replaces the frame exactly when the decoder returns one, and writes exactly one report of the frame held after that |
| App.Timestamp | src/main.rs:131-132 | The timestamp is the reading divided by 84, rounded down, and at most `u32::MAX / 84` |
| App.TimestampMonotone | src/main.rs:131-132 | A later counter reading never gives an earlier timestamp |
| App.Timestamps | src/main.rs:131-132 | Each reading gets its own timestamp, in order |
| App.TimestampsSorted | src/main.rs:131-132 | Non-decreasing counter readings give non-decreasing timestamps |
| App.PulseInput.constructor | src/main.rs:100 | A new decoder has received no pulse |
| App.PulseInput.PpmFalling | src/main.rs:125-133 | Each falling edge hands the decoder one more timestamp, after the earlier ones |

## Left out

- RTIC machinery is left out: task priorities, `lock` closures, interrupt bindings and the
  `usb_tx`/`usb_rx` relays. The report task is modelled as a sequential step, and preemption
  by `ppm_falling` is not modelled.
- App.ReportTask.Report: does not model the panic of `schedule(...).unwrap()` when the
  schedule queue is full. It also does not read the instant the run actually starts, since
  the source does not.
- Hardware bring-up is left out because it is peripheral I/O: clocks, GPIO and EXTI, DWT and
  DCB, the endpoint memory and bus allocator, the device builder, and interrupt flag clearing.
  The cycle counter reading is a parameter.
- RTT logging is left out.
- The `ppm_decode` crate is not part of this model.
  - Its parser appears as the list of timestamps it is handed and as the list of
    `Option<Frame>` its `next_frame` returns.
  - `PpmTime` is taken to be `u32`, and a frame to hold twenty channel values and a count.
- The `usb_device` crate is not part of this model.
  - `DescriptorWriter` is a list of records with a byte budget. The interface and endpoint
    records are kept as values, not encoded to bytes.
  - `accept_with`'s truncation of the answer to wLength is not modelled.
  - `HIDClass::write` (`src/hid.rs:50-52`) appears only as the report it is handed. Its
    result is discarded in the source, so a busy endpoint is not modelled.
- The `cortex_m::asm::bkpt()` at `src/hid.rs:108` is treated as a no-op. On hardware, this
  breakpoint halts the core on every GET_DESCRIPTOR(0x21), or faults when no debugger is
  attached.
- InputReport.Normalize: models `(a as i16) - 1000` with wrap-around, as a release build
  computes it. It does not model the overflow panic of a debug build for values below
  -31768.
- `src/types.rs` is not part of this model, because `src/main.rs` never declares it as a
  module.
