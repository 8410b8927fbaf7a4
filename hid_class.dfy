/**
 * The gamepad's USB class (HIDClass in src/hid.rs): how it answers control requests on endpoint 0
 * and which descriptors it adds to the configuration descriptor. The class never changes its
 * interface number or its endpoint after construction, so every handler is a function of the
 * class and the request.
 */
module HidClass {
  import opened Wire
  import ReportDescriptor
  import InputReport

  // ---------------------------------------------------------------------------
  // Setup packets (USB 2.0, section 9.3)
  // ---------------------------------------------------------------------------

  /** bmRequestType bits 6..5. */
  datatype RequestType = Standard | Class | Vendor | Reserved

  /** bmRequestType bits 4..0; the codes 4 to 31 are reserved. */
  datatype Recipient = Device | Interface | Endpoint | Other | Reserved

  /** A decoded setup packet: bmRequestType, bRequest, wValue, wIndex and wLength. */
  datatype Request = Request(requestType: RequestType, recipient: Recipient, request: u8, value: u16, index: u16, length: u16)

  /** What a control handler does with a request: leave it to the other classes, answer it
      with data, or stall it. */
  datatype Response = Ignore | Accept(data: seq<u8>) | Reject

  /** bRequest of a standard GET_DESCRIPTOR (USB 2.0, table 9-4). */
  const GetDescriptor: u8 := 6

  /** bRequest of the class-specific GET_REPORT (HID 1.11, section 7.2). */
  const GetReport: u8 := 0x01

  /** Descriptor types of the HID class (HID 1.11, section 7.1). */
  const HidDescriptorType: u8 := 0x21
  const ReportDescriptorType: u8 := 0x22

  /** The descriptor type a GET_DESCRIPTOR asks for: the high byte of wValue (USB 2.0, section 9.4.3). */
  function DescriptorType(value: u16): (t: u8)
    ensures t as int * 0x100 <= value as int < (t as int + 1) * 0x100
  {
    (value / 0x100) as u8
  }

  // ---------------------------------------------------------------------------
  // The class
  // ---------------------------------------------------------------------------

  /** An interrupt IN endpoint as the bus allocator hands it out. */
  datatype EndpointIn = EndpointIn(address: u8, maxPacketSize: nat, interval: nat)

  /** HIDClass: the interface number and the report endpoint, fixed at construction. */
  datatype HidClass = HidClass(reportIf: u8, reportEp: EndpointIn)

  /** HIDClass::new: one interface and a 32-byte interrupt endpoint polled every 10 ms; the
      interface number and the endpoint address are whatever the allocator hands out. */
  function NewHidClass(interfaceNumber: u8, endpointAddress: u8): (c: HidClass)
    ensures c.reportIf == interfaceNumber && c.reportEp.address == endpointAddress
    ensures c.reportEp.maxPacketSize == InputReport.ReportLength && c.reportEp.interval == 10
  {
    HidClass(interfaceNumber, EndpointIn(endpointAddress, 32, 10))
  }

  /** The low and the high byte of `REPORT_DESCR.len() as u16`. */
  function ReportDescrLength(): (bytes: seq<u8>)
    ensures |bytes| == 2
  {
    var len := |ReportDescriptor.ReportDescr| % 0x1_0000;
    [(len % 0x100) as u8, (len / 0x100) as u8]
  }

  /** The HID descriptor control_in sends (HID 1.11, section 6.2.1): bLength 9, type 0x21,
      bcdHID 1.01, no country code, one class descriptor of type 0x22 and its length. */
  function HidDescriptorReply(): (bytes: seq<u8>)
    ensures |bytes| == 9 && bytes[0] as int == |bytes| && bytes[1] == HidDescriptorType
  {
    [0x09, 0x21, 0x01, 0x01, 0x00, 0x01, 0x22] + ReportDescrLength()
  }

  /** The class-level check both handlers share: a class request addressed to this interface. */
  predicate ForThisInterface(c: HidClass, req: Request)
  {
    req.requestType == Class && req.recipient == Interface && req.index == c.reportIf as u16
  }

  /** The class request part of control_in, reached by every request that is not a standard
      request it answered or ignored. */
  function ClassControlIn(c: HidClass, req: Request): (r: Response)
    ensures r != Ignore <==> ForThisInterface(c, req)
    ensures r.Accept? <==> ForThisInterface(c, req) && req.request == GetReport
    ensures r.Accept? ==> r.data == [0, 0, 0, 0]
  {
    if !ForThisInterface(c, req) then Ignore
    else if req.request == GetReport then Accept([0, 0, 0, 0])
    else Reject
  }

  /** HIDClass::control_in. The standard branch answers GET_DESCRIPTOR for the HID and the
      report descriptor; another descriptor type falls through to the class check, which a
      standard request never passes. */
  function ControlIn(c: HidClass, req: Request): (r: Response)
    ensures r == Reject <==> ForThisInterface(c, req) && req.request != GetReport
    ensures r.Accept? <==> || IsStandardGetDescriptor(req, HidDescriptorType)
                           || IsStandardGetDescriptor(req, ReportDescriptorType)
                           || (ForThisInterface(c, req) && req.request == GetReport)
  {
    if req.requestType == Standard then
      if req.recipient == Interface && req.request == GetDescriptor then
        var dtype := DescriptorType(req.value);
        if dtype == HidDescriptorType then Accept(HidDescriptorReply())
        else if dtype == ReportDescriptorType then Accept(ReportDescriptor.ReportDescr)
        else ClassControlIn(c, req)
      else Ignore
    else ClassControlIn(c, req)
  }

  /** HIDClass::control_out: stalls the class requests addressed to this interface, since it
      takes none, and leaves every other request alone. */
  function ControlOut(c: HidClass, req: Request): (r: Response)
    ensures r == Reject <==> ForThisInterface(c, req)
    ensures r != Reject ==> r == Ignore
  {
    if !ForThisInterface(c, req) then Ignore else Reject
  }

  // ---------------------------------------------------------------------------
  // What control_in answers
  // ---------------------------------------------------------------------------

  predicate IsStandardGetDescriptor(req: Request, dtype: u8)
  {
    req.requestType == Standard && req.recipient == Interface && req.request == GetDescriptor && DescriptorType(req.value) == dtype
  }

  /** GET_DESCRIPTOR(HID) is answered with 09 21 01 01 00 01 22 38 00, whatever wIndex says. */
  lemma HidDescriptorAnswer(c: HidClass, req: Request)
    requires IsStandardGetDescriptor(req, HidDescriptorType)
    ensures ControlIn(c, req) == Accept([0x09, 0x21, 0x01, 0x01, 0x00, 0x01, 0x22, 0x38, 0x00])
  {
    assert |ReportDescriptor.ReportDescr| == 0x38;
  }

  /** The last two bytes of the HID descriptor give the length of the report descriptor that
      GET_DESCRIPTOR(Report) returns. */
  lemma HidDescriptorGivesReportLength(c: HidClass, req: Request)
    requires IsStandardGetDescriptor(req, ReportDescriptorType)
    ensures ControlIn(c, req) == Accept(ReportDescriptor.ReportDescr)
    ensures HidDescriptorReply()[7] as int + 0x100 * HidDescriptorReply()[8] as int == |ControlIn(c, req).data|
  {
    assert |ReportDescriptor.ReportDescr| == 0x38;
  }

  /** A standard request is answered only when it is GET_DESCRIPTOR to an interface for the
      HID or the report descriptor; every other standard request is ignored. */
  lemma StandardRequests(c: HidClass, req: Request)
    requires req.requestType == Standard
    ensures ControlIn(c, req) != Reject
    ensures ControlIn(c, req).Accept? <==>
            IsStandardGetDescriptor(req, HidDescriptorType) || IsStandardGetDescriptor(req, ReportDescriptorType)
  {
  }

  /** Standard requests never look at wIndex, nor at wLength; no request looks at the endpoint. */
  lemma ControlInIgnoresIndex(c: HidClass, req: Request, index: u16, length: u16, ep: EndpointIn)
    requires req.requestType == Standard
    ensures ControlIn(c, req) == ControlIn(c.(reportEp := ep), req.(index := index, length := length))
  {
  }

  /** Class requests: GET_REPORT to this interface gets four zero bytes, any other request to
      this interface is stalled, and requests to other interfaces or recipients are ignored. */
  lemma ClassRequests(c: HidClass, req: Request)
    requires req.requestType != Standard
    ensures ControlIn(c, req) == Reject <==> ForThisInterface(c, req) && req.request != GetReport
    ensures ControlIn(c, req).Accept? <==> ForThisInterface(c, req) && req.request == GetReport
    ensures ControlIn(c, req).Accept? ==> ControlIn(c, req).data == [0, 0, 0, 0]
  {
  }

  /** The GET_REPORT answer is not the report: it is 4 bytes where the interrupt endpoint sends
      the 32 bytes REPORT_DESCR declares. */
  lemma GetReportAnswerIsShort(c: HidClass, req: Request, axes: seq<u32>)
    requires ForThisInterface(c, req) && req.request == GetReport && |axes| == InputReport.AxisCount
    ensures ControlIn(c, req).Accept? && |ControlIn(c, req).data| < |InputReport.ReportBytes(axes)|
  {
  }

  // ---------------------------------------------------------------------------
  // Configuration descriptors
  // ---------------------------------------------------------------------------

  /** A descriptor as the configuration descriptor writer records it. */
  datatype DescriptorRecord =
    | InterfaceRecord(number: u8, interfaceClass: u8, subClass: u8, protocol: u8)
    | RawRecord(descriptorType: u8, payload: seq<u8>)
    | EndpointRecord(endpoint: EndpointIn)

  /** The configuration descriptor written so far and the room left in its buffer. */
  datatype Writer = Writer(records: seq<DescriptorRecord>, free: nat)

  datatype WriteResult = Ok | BufferOverflow

  /** Bytes a record takes: an interface descriptor 9, an endpoint descriptor 7, a raw
      descriptor its payload plus bLength and bDescriptorType. */
  function RecordLength(r: DescriptorRecord): nat
  {
    match r
    case InterfaceRecord(_, _, _, _) => 9
    case RawRecord(_, payload) => 2 + |payload|
    case EndpointRecord(_) => 7
  }

  /** The bytes of a raw record: bLength, bDescriptorType, then the payload. */
  function RawRecordBytes(descriptorType: u8, payload: seq<u8>): (bytes: seq<u8>)
    requires 2 + |payload| < 0x100
    ensures |bytes| == RecordLength(RawRecord(descriptorType, payload)) && bytes[0] as int == |bytes|
  {
    [(2 + |payload|) as u8, descriptorType] + payload
  }

  /** Bytes the given records take in the configuration descriptor. */
  function RecordsLength(records: seq<DescriptorRecord>): nat
  {
    if records == [] then 0 else RecordsLength(records[..|records| - 1]) + RecordLength(records[|records| - 1])
  }

  /** Appends one record, or fails without writing when the buffer has no room for it. Either
      way, every byte of the buffer is still either written or free. */
  function Write(w: Writer, r: DescriptorRecord): (result: (Writer, WriteResult))
    ensures result.1 == Ok <==> RecordLength(r) <= w.free
    ensures result.1 == Ok ==> result.0.records == w.records + [r]
    ensures result.1 != Ok ==> result.0 == w
    ensures RecordsLength(result.0.records) + result.0.free == RecordsLength(w.records) + w.free
  {
    if RecordLength(r) <= w.free then
      var records := w.records + [r];
      assert records[..|records| - 1] == w.records;
      (Writer(records, w.free - RecordLength(r)), Ok)
    else (w, BufferOverflow)
  }

  /** The payload of the HID descriptor get_configuration_descriptors writes. */
  function HidDescriptorPayload(): (payload: seq<u8>)
    ensures |payload| == 7
  {
    [0x01, 0x01, 0x00, 0x01, 0x22] + ReportDescrLength()
  }

  /** The three records, in the order get_configuration_descriptors writes them. */
  function ConfigurationRecords(c: HidClass): (records: seq<DescriptorRecord>)
    ensures |records| == 3 && RecordsLength(records) == 25
    ensures records[0] == InterfaceRecord(c.reportIf, 0x03, 0x00, 0x05)
    ensures records[1] == RawRecord(HidDescriptorType, HidDescriptorPayload())
    ensures records[2] == EndpointRecord(c.reportEp)
  {
    var interface := InterfaceRecord(c.reportIf, 0x03, 0x00, 0x05);
    var hid := RawRecord(HidDescriptorType, HidDescriptorPayload());
    var records := [interface, hid, EndpointRecord(c.reportEp)];
    assert [interface, hid][..1] == [interface] && [interface][..0] == [];
    assert RecordsLength([interface]) == 9;
    assert RecordsLength([interface, hid]) == 18;
    assert records[..2] == [interface, hid];
    records
  }

  /** HIDClass::get_configuration_descriptors: three writes, the first failure returned at once. */
  function GetConfigurationDescriptors(c: HidClass, w: Writer): (result: (Writer, WriteResult))
    ensures RecordsLength(result.0.records) + result.0.free == RecordsLength(w.records) + w.free
  {
    var records := ConfigurationRecords(c);
    var (w1, r1) := Write(w, records[0]);
    if r1 != Ok then (w1, r1)
    else
      var (w2, r2) := Write(w1, records[1]);
      if r2 != Ok then (w2, r2)
      else Write(w2, records[2])
  }

  /** With 25 bytes free the three records are appended in order; with less, the call fails
      and has appended exactly the records that fitted before the first that did not. */
  lemma ConfigurationDescriptorsWritten(c: HidClass, w: Writer)
    ensures var (w', result) := GetConfigurationDescriptors(c, w);
            && (result == Ok <==> w.free >= 25)
            && (result == Ok ==> w'.records == w.records + ConfigurationRecords(c) && w'.free == w.free - 25)
            && (var n := if w.free < 9 then 0 else if w.free < 18 then 1 else if w.free < 25 then 2 else 3;
                w'.records == w.records + ConfigurationRecords(c)[..n])
  {
  }

  /** The HID descriptor in the configuration descriptor is byte for byte the one
      GET_DESCRIPTOR(HID) returns. */
  lemma ConfigurationHidDescriptorMatchesControlIn(c: HidClass, req: Request)
    requires IsStandardGetDescriptor(req, HidDescriptorType)
    ensures ConfigurationRecords(c)[1] == RawRecord(HidDescriptorType, HidDescriptorPayload())
    ensures ControlIn(c, req) == Accept(RawRecordBytes(HidDescriptorType, HidDescriptorPayload()))
  {
  }

  /** The report endpoint's packet holds exactly one report of the size REPORT_DESCR declares. */
  lemma EndpointHoldsOneReport(interfaceNumber: u8, endpointAddress: u8)
    ensures ReportDescriptor.Parse(ReportDescriptor.ReportDescr).Some?
    ensures 8 * NewHidClass(interfaceNumber, endpointAddress).reportEp.maxPacketSize
            == ReportDescriptor.InputReportBits(ReportDescriptor.Parse(ReportDescriptor.ReportDescr).value.inputs)
  {
    ReportDescriptor.ReportDescrInputBits();
  }
}
