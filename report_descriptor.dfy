/**
 * The HID report descriptor the gamepad advertises (REPORT_DESCR in src/hid.rs), and just
 * enough of a HID report-descriptor parser to read its layout back: the short-item format
 * of section 6.2.2.2 of the USB Device Class Definition for HID 1.11, and the main, global
 * and local item state of its sections 6.2.2.4 to 6.2.2.8.
 */
module ReportDescriptor {
  import opened Wire

  /** REPORT_DESCR, byte for byte and in the source's order: a Game Pad application collection
      holding a physical collection of sixteen 16-bit absolute axes with logical range -500..500.
      It is written as three runs so that proofs can read it run by run. */
  const ReportDescr: seq<u8> := GamepadHeader + AxisUsages + AxisLayout

  const GamepadHeader: seq<u8> := [
    0x05, 0x01,       // Usage Page (Generic Desktop)
    0x09, 0x05,       // Usage (Game Pad)
    0xA1, 0x01,       // Collection (Application)
    0xA1, 0x00,       //   Collection (Physical)
    0x05, 0x01        //     Usage Page (Generic Desktop)
  ]

  /** Sixteen Usage items; the source's comments call them Usage Minimum, but tag 0 of a
      local item is Usage (section 6.2.2.8). */
  const AxisUsages: seq<u8> := [
    0x09, 0x30, 0x09, 0x31, 0x09, 0x32, 0x09, 0x33,   // X, Y, Z, Rx
    0x09, 0x34, 0x09, 0x35, 0x09, 0x36, 0x09, 0x37,   // Ry, Rz, Slider, Dial
    0x09, 0x38, 0x09, 0x40, 0x09, 0x41, 0x09, 0x42,   // Wheel, Vx, Vy, Vz
    0x09, 0x43, 0x09, 0x44, 0x09, 0x45, 0x09, 0x46    // Vbrx, Vbry, Vbrz, Vno
  ]

  const AxisLayout: seq<u8> := [
    0x16, 0x0C, 0xFE, //     Logical Minimum (-500)
    0x26, 0xF4, 0x01, //     Logical Maximum (500)
    0x75, 0x10,       //     Report Size (16)
    0x95, 0x10,       //     Report Count (16)
    0x81, 0x02,       //     Input (Data, Variable, Absolute)
    0xC0,             //   End Collection
    0xC0              // End Collection
  ]

  // ---------------------------------------------------------------------------
  // Short items (HID 1.11, section 6.2.2.2)
  // ---------------------------------------------------------------------------

  /** bType of an item prefix. */
  datatype ItemType = Main | Global | Local | Reserved

  /** A short item: bTag, bType and its 0, 1, 2 or 4 data bytes. */
  datatype ShortItem = ShortItem(tag: nat, itemType: ItemType, data: seq<u8>)

  /** The prefix byte that announces a long item (bTag 15, bType 3, bSize 2). */
  const LongItemPrefix: u8 := 0xFE

  function TypeCode(t: ItemType): nat
  {
    match t
    case Main => 0
    case Global => 1
    case Local => 2
    case Reserved => 3
  }

  function TypeOfCode(code: nat): ItemType
  {
    if code == 0 then Main else if code == 1 then Global else if code == 2 then Local else Reserved
  }

  /** Number of data bytes announced by the bSize field: 0, 1, 2, or 4 for the code 3. */
  function DataSize(sizeCode: nat): nat
  {
    if sizeCode == 3 then 4 else sizeCode
  }

  function SizeCode(size: nat): nat
  {
    if size == 4 then 3 else size
  }

  predicate WellFormedItem(item: ShortItem)
  {
    && item.tag < 16
    && (|item.data| == 0 || |item.data| == 1 || |item.data| == 2 || |item.data| == 4)
    && ItemPrefix(item) != LongItemPrefix as int
  }

  function ItemPrefix(item: ShortItem): nat
  {
    item.tag * 16 + TypeCode(item.itemType) * 4 + SizeCode(|item.data|)
  }

  /** The bytes of a short item: its prefix followed by its data. */
  function EncodeItem(item: ShortItem): (bytes: seq<u8>)
    requires WellFormedItem(item)
    ensures |bytes| == 1 + |item.data|
  {
    [ItemPrefix(item) as u8] + item.data
  }

  /** Reads the short item that starts at byte `pos`, with the position just after it.
      A long item prefix, or data running past the end of `s`, gives None. */
  function ParseItem(s: seq<u8>, pos: nat): (r: Option<(ShortItem, nat)>)
    requires pos < |s|
    ensures r.Some? ==> pos < r.value.1 <= |s|
  {
    var prefix := s[pos] as nat;
    var size := DataSize(prefix % 4);
    if prefix == LongItemPrefix as nat || |s| - pos - 1 < size then None
    else
      var data :=
        if size == 0 then []
        else if size == 1 then [s[pos + 1]]
        else if size == 2 then [s[pos + 1], s[pos + 2]]
        else [s[pos + 1], s[pos + 2], s[pos + 3], s[pos + 4]];
      var item := ShortItem(prefix / 16, TypeOfCode(prefix / 4 % 4), data);
      Some((item, pos + 1 + size))
  }

  /** Reading an encoded item back gives the item and skips exactly its bytes. */
  lemma ParseEncodedItem(before: seq<u8>, item: ShortItem, after: seq<u8>)
    requires WellFormedItem(item)
    ensures var s := before + EncodeItem(item) + after;
            ParseItem(s, |before|) == Some((item, |before| + |EncodeItem(item)|))
  {
    var s := before + EncodeItem(item) + after;
    var pos, prefix := |before|, ItemPrefix(item);
    assert s[pos] as nat == prefix;
    assert prefix / 16 == item.tag;
    assert TypeOfCode(prefix / 4 % 4) == item.itemType;
    assert DataSize(prefix % 4) == |item.data|;
    assert forall k :: 0 <= k < |item.data| ==> s[pos + 1 + k] == item.data[k];
    var d := item.data;
    if |d| == 1 {
      assert d == [s[pos + 1]];
    } else if |d| == 2 {
      assert d == [s[pos + 1], s[pos + 2]];
    } else if |d| == 4 {
      assert d == [s[pos + 1], s[pos + 2], s[pos + 3], s[pos + 4]];
    }
  }

  /** Range of a data field of `size` bytes, 2 to the power 8 * size, for the sizes a short item allows. */
  function DataRange(size: nat): nat
  {
    if size == 0 then 1 else if size == 1 then 0x100 else if size == 2 then 0x1_0000 else 0x1_0000_0000
  }

  /** The data of a short item read as an unsigned little-endian number (section 6.2.2.2). */
  function UnsignedData(data: seq<u8>): nat
  {
    if |data| == 0 then 0
    else if |data| == 1 then data[0] as nat
    else if |data| == 2 then data[0] as nat + 0x100 * data[1] as nat
    else if |data| == 4 then data[0] as nat + 0x100 * data[1] as nat + 0x1_0000 * data[2] as nat + 0x100_0000 * data[3] as nat
    else 0 // no short item has three data bytes
  }

  /** The data of a short item read as a two's complement little-endian number, as
      Logical Minimum and Logical Maximum are (section 6.2.2.7). No data reads as 0. */
  function SignedData(data: seq<u8>): int
  {
    var u := UnsignedData(data);
    if data != [] && u >= DataRange(|data|) / 2 then u - DataRange(|data|) else u
  }

  // ---------------------------------------------------------------------------
  // Item state (HID 1.11, sections 6.2.2.4 to 6.2.2.8)
  // ---------------------------------------------------------------------------

  const MainInput: nat := 0x8
  const MainCollection: nat := 0xA
  const MainEndCollection: nat := 0xC
  const GlobalUsagePage: nat := 0x0
  const GlobalLogicalMinimum: nat := 0x1
  const GlobalLogicalMaximum: nat := 0x2
  const GlobalReportSize: nat := 0x7
  const GlobalReportCount: nat := 0x9
  const LocalUsage: nat := 0x0

  /** The global item state table, restricted to the entries this descriptor uses. */
  datatype Globals = Globals(usagePage: nat, logicalMinimum: int, logicalMaximum: int, reportSize: nat, reportCount: nat)

  /** One Input main item: how many Usages it received and the global state it was declared under. */
  datatype InputField = InputField(usages: nat, reportSize: nat, reportCount: nat, logicalMinimum: int, logicalMaximum: int)

  /** What a host parser has gathered after a prefix of the descriptor. */
  datatype ParseState = ParseState(
    items: nat,               // short items read so far
    depth: nat,               // open collections
    collections: nat,         // Collection items seen
    endCollections: nat,      // End Collection items seen
    globals: Globals,
    pendingUsages: nat,       // Usage items since the last main item
    inputs: seq<InputField>)  // Input items, in order

  const InitialState := ParseState(0, 0, 0, 0, Globals(0, 0, 0, 0, 0), 0, [])

  /** Applies one item to the parser state. An End Collection with no open collection is an error. */
  function ApplyItem(st: ParseState, item: ShortItem): (r: Option<ParseState>)
  {
    var st := st.(items := st.items + 1);
    match item.itemType
    case Main =>
      // every main item consumes the local items before it
      if item.tag == MainInput then
        var g := st.globals;
        Some(st.(inputs := st.inputs + [InputField(st.pendingUsages, g.reportSize, g.reportCount, g.logicalMinimum, g.logicalMaximum)],
                 pendingUsages := 0))
      else if item.tag == MainCollection then
        Some(st.(depth := st.depth + 1, collections := st.collections + 1, pendingUsages := 0))
      else if item.tag == MainEndCollection then
        if st.depth == 0 then None
        else Some(st.(depth := st.depth - 1, endCollections := st.endCollections + 1, pendingUsages := 0))
      else
        Some(st.(pendingUsages := 0))
    case Global =>
      var g := st.globals;
      if item.tag == GlobalUsagePage then Some(st.(globals := g.(usagePage := UnsignedData(item.data))))
      else if item.tag == GlobalLogicalMinimum then Some(st.(globals := g.(logicalMinimum := SignedData(item.data))))
      else if item.tag == GlobalLogicalMaximum then Some(st.(globals := g.(logicalMaximum := SignedData(item.data))))
      else if item.tag == GlobalReportSize then Some(st.(globals := g.(reportSize := UnsignedData(item.data))))
      else if item.tag == GlobalReportCount then Some(st.(globals := g.(reportCount := UnsignedData(item.data))))
      else Some(st)
    case Local =>
      if item.tag == LocalUsage then Some(st.(pendingUsages := st.pendingUsages + 1)) else Some(st)
    case Reserved =>
      Some(st)
  }

  /** Reads the items from byte `pos` to the end of `s`; None if an item is malformed or
      a collection is closed that was never opened. */
  function Walk(s: seq<u8>, pos: nat, st: ParseState): Option<ParseState>
    requires pos <= |s|
    decreases |s| - pos
  {
    if pos == |s| then Some(st)
    else
      var parsed := ParseItem(s, pos);
      if parsed.None? then None
      else
        var st' := ApplyItem(st, parsed.value.0);
        if st'.None? then None else Walk(s, parsed.value.1, st'.value)
  }

  /** A descriptor reads completely into short items and closes every collection it opens. */
  function Parse(s: seq<u8>): (r: Option<ParseState>)
    ensures r.Some? ==> r.value.depth == 0
  {
    match Walk(s, 0, InitialState)
    case Some(st) => if st.depth == 0 then Some(st) else None
    case None => None
  }

  /** Every collection seen so far is either still open or closed again. */
  predicate Balanced(st: ParseState)
  {
    st.collections == st.endCollections + st.depth
  }

  /** One item counts one more item read and keeps the collections balanced; it fails exactly
      on an End Collection with no open collection. */
  lemma ApplyItemKeepsBalance(st: ParseState, item: ShortItem)
    requires Balanced(st)
    ensures ApplyItem(st, item).None? <==> item.itemType == Main && item.tag == MainEndCollection && st.depth == 0
    ensures ApplyItem(st, item).Some? ==> Balanced(ApplyItem(st, item).value) && ApplyItem(st, item).value.items == st.items + 1
  {}

  lemma {:induction false} WalkKeepsBalance(s: seq<u8>, pos: nat, st: ParseState)
    requires pos <= |s| && Balanced(st)
    ensures Walk(s, pos, st).Some? ==> Balanced(Walk(s, pos, st).value) && Walk(s, pos, st).value.items >= st.items
    decreases |s| - pos
  {
    if pos < |s| {
      var parsed := ParseItem(s, pos);
      if parsed.Some? {
        ApplyItemKeepsBalance(st, parsed.value.0);
        var st' := ApplyItem(st, parsed.value.0);
        if st'.Some? {
          WalkKeepsBalance(s, parsed.value.1, st'.value);
        }
      }
    }
  }

  /** A descriptor that parses closes exactly the collections it opens. */
  lemma ParseClosesCollections(s: seq<u8>)
    ensures Parse(s).Some? ==> Parse(s).value.collections == Parse(s).value.endCollections
  {
    WalkKeepsBalance(s, 0, InitialState);
  }

  /** Bits of the input report the descriptor declares: report size times report count, summed over its Input items. */
  function InputReportBits(inputs: seq<InputField>): nat
  {
    if inputs == [] then 0 else inputs[0].reportSize * inputs[0].reportCount + InputReportBits(inputs[1..])
  }

  function UsagePageItem(page: u8): ShortItem { ShortItem(GlobalUsagePage, Global, [page]) }
  function UsageItem(usage: u8): ShortItem { ShortItem(LocalUsage, Local, [usage]) }
  function CollectionItem(kind: u8): ShortItem { ShortItem(MainCollection, Main, [kind]) }

  /** `n` one-byte Usage items start at byte `pos` of `s`. */
  predicate UsageRun(s: seq<u8>, pos: nat, n: nat)
    decreases n
  {
    n == 0 || (pos + 1 < |s| && s[pos] == 0x09 && UsageRun(s, pos + 2, n - 1))
  }

  /** The state after `n` more Usage items: counted as items and as pending usages. */
  function UsagesRead(st: ParseState, n: nat): ParseState
  {
    st.(items := st.items + n, pendingUsages := st.pendingUsages + n)
  }

  /** Reading a run of Usage items only counts them as pending usages for the next main item. */
  lemma {:induction false} WalkUsageRun(s: seq<u8>, pos: nat, n: nat, st: ParseState)
    requires pos <= |s| && UsageRun(s, pos, n)
    ensures pos + 2 * n <= |s|
    ensures Walk(s, pos, st) == Walk(s, pos + 2 * n, UsagesRead(st, n))
    decreases n
  {
    if n > 0 {
      var st' := UsagesRead(st, 1);
      var end := pos + 2 * n;
      assert pos + 1 < |s| && s[pos] == 0x09 && UsageRun(s, pos + 2, n - 1);
      UsageRunFits(s, pos + 2, n - 1);
      assert pos + 2 + 2 * (n - 1) == end;
      WalkUsage(s, pos, st);
      WalkUsageRun(s, pos + 2, n - 1, st');
      assert UsagesRead(st', n - 1) == UsagesRead(st, n);
    }
  }

  lemma {:induction false} UsageRunFits(s: seq<u8>, pos: nat, n: nat)
    requires UsageRun(s, pos, n) && pos <= |s|
    ensures pos + 2 * n <= |s|
    decreases n
  {
    if n > 0 {
      UsageRunFits(s, pos + 2, n - 1);
    }
  }

  /** One Usage item: counted as an item and as a pending usage, nothing else changes. */
  lemma WalkUsage(s: seq<u8>, pos: nat, st: ParseState)
    requires pos + 1 < |s| && s[pos] == 0x09
    ensures Walk(s, pos, st) == Walk(s, pos + 2, UsagesRead(st, 1))
  {
    WalkStep(s, pos, st, UsageItem(s[pos + 1]), pos + 2, UsagesRead(st, 1));
  }

  /** One item read: a walk that reads `item` at `pos` continues at `next` in the state `item` leads to. */
  lemma WalkStep(s: seq<u8>, pos: nat, st: ParseState, item: ShortItem, next: nat, st': ParseState)
    requires pos < |s| && ParseItem(s, pos) == Some((item, next)) && ApplyItem(st, item) == Some(st')
    ensures Walk(s, pos, st) == Walk(s, next, st')
  {}

  // ---------------------------------------------------------------------------
  // REPORT_DESCR, read run by run
  // ---------------------------------------------------------------------------

  /** The state after the header: two collections open, Usage Page Generic Desktop, the
      Game Pad usage consumed by the application collection. */
  const HeaderState := ParseState(5, 2, 2, 0, Globals(1, 0, 0, 0, 0), 0, [])

  /** The state after the sixteen axis usages. */
  const UsagesState := ParseState(21, 2, 2, 0, Globals(1, 0, 0, 0, 0), 16, [])

  /** The single Input item of REPORT_DESCR: sixteen usages, sixteen 16-bit fields, range -500..500. */
  const AxesField := InputField(16, 16, 16, -500, 500)

  /** The state after the whole descriptor. */
  const ReportDescrState := ParseState(28, 0, 2, 2, AxisGlobals, 0, [AxesField])

  /** The five header items, read from bytes 0 to 9. */
  lemma ReadGamepadHeader(s: seq<u8>)
    requires 10 < |s|
    requires s[0] == 0x05 && s[1] == 0x01 && s[2] == 0x09 && s[3] == 0x05 && s[4] == 0xA1
    requires s[5] == 0x01 && s[6] == 0xA1 && s[7] == 0x00 && s[8] == 0x05 && s[9] == 0x01
    ensures Walk(s, 0, InitialState) == Walk(s, 10, HeaderState)
  {
    var g := Globals(1, 0, 0, 0, 0);
    WalkStep(s, 0, InitialState, UsagePageItem(1), 2, ParseState(1, 0, 0, 0, g, 0, []));
    WalkStep(s, 2, ParseState(1, 0, 0, 0, g, 0, []), UsageItem(5), 4, ParseState(2, 0, 0, 0, g, 1, []));
    WalkStep(s, 4, ParseState(2, 0, 0, 0, g, 1, []), CollectionItem(1), 6, ParseState(3, 1, 1, 0, g, 0, []));
    WalkStep(s, 6, ParseState(3, 1, 1, 0, g, 0, []), CollectionItem(0), 8, ParseState(4, 2, 2, 0, g, 0, []));
    WalkStep(s, 8, ParseState(4, 2, 2, 0, g, 0, []), UsagePageItem(1), 10, HeaderState);
  }

  /** The global state the Input item is declared under: Logical Minimum -500, Logical Maximum
      500, Report Size 16 and Report Count 16. */
  const AxisGlobals := Globals(1, -500, 500, 16, 16)

  /** The four global items of the axis layout, read from bytes 42 to 51. */
  lemma ReadAxisGlobals(s: seq<u8>)
    requires 52 < |s|
    requires s[42] == 0x16 && s[43] == 0x0C && s[44] == 0xFE && s[45] == 0x26 && s[46] == 0xF4 && s[47] == 0x01
    requires s[48] == 0x75 && s[49] == 0x10 && s[50] == 0x95 && s[51] == 0x10
    ensures Walk(s, 42, UsagesState) == Walk(s, 52, ParseState(25, 2, 2, 0, AxisGlobals, 16, []))
  {
    var g1 := Globals(1, -500, 0, 0, 0);
    var g2 := g1.(logicalMaximum := 500);
    var g3 := g2.(reportSize := 16);
    assert SignedData([0x0C, 0xFE]) == -500;
    WalkStep(s, 42, UsagesState, ShortItem(GlobalLogicalMinimum, Global, [0x0C, 0xFE]), 45, ParseState(22, 2, 2, 0, g1, 16, []));
    WalkStep(s, 45, ParseState(22, 2, 2, 0, g1, 16, []), ShortItem(GlobalLogicalMaximum, Global, [0xF4, 0x01]), 48, ParseState(23, 2, 2, 0, g2, 16, []));
    WalkStep(s, 48, ParseState(23, 2, 2, 0, g2, 16, []), ShortItem(GlobalReportSize, Global, [0x10]), 50, ParseState(24, 2, 2, 0, g3, 16, []));
    WalkStep(s, 50, ParseState(24, 2, 2, 0, g3, 16, []), ShortItem(GlobalReportCount, Global, [0x10]), 52, ParseState(25, 2, 2, 0, AxisGlobals, 16, []));
  }

  /** The Input item, read from bytes 52 and 53: it takes the sixteen pending usages and the
      global state. */
  lemma ReadInput(s: seq<u8>)
    requires 54 < |s| && s[52] == 0x81 && s[53] == 0x02
    ensures Walk(s, 52, ParseState(25, 2, 2, 0, AxisGlobals, 16, [])) == Walk(s, 54, ParseState(26, 2, 2, 0, AxisGlobals, 0, [AxesField]))
  {
    assert [] + [AxesField] == [AxesField];
    WalkStep(s, 52, ParseState(25, 2, 2, 0, AxisGlobals, 16, []), ShortItem(MainInput, Main, [0x02]), 54, ParseState(26, 2, 2, 0, AxisGlobals, 0, [AxesField]));
  }

  /** The two End Collections, read from bytes 54 and 55, end the descriptor. */
  lemma ReadEndCollections(s: seq<u8>)
    requires |s| == 56 && s[54] == 0xC0 && s[55] == 0xC0
    ensures Walk(s, 54, ParseState(26, 2, 2, 0, AxisGlobals, 0, [AxesField])) == Some(ReportDescrState)
  {
    var endItem := ShortItem(MainEndCollection, Main, []);
    WalkStep(s, 54, ParseState(26, 2, 2, 0, AxisGlobals, 0, [AxesField]), endItem, 55, ParseState(27, 1, 2, 1, AxisGlobals, 0, [AxesField]));
    WalkStep(s, 55, ParseState(27, 1, 2, 1, AxisGlobals, 0, [AxesField]), endItem, 56, ReportDescrState);
  }

  /** The sixteen axis usages follow the header. */
  lemma AxisUsagesRun()
    ensures UsageRun(ReportDescr, 10, 16)
  {
    var k := 16;
    while k > 0
      invariant 0 <= k <= 16 && UsageRun(ReportDescr, 10 + 2 * k, 16 - k)
    {
      k := k - 1;
    }
  }

  /** The header and the axis usages together. */
  lemma ReadHeaderAndUsages(s: seq<u8>)
    requires 42 < |s|
    requires s[0] == 0x05 && s[1] == 0x01 && s[2] == 0x09 && s[3] == 0x05 && s[4] == 0xA1
    requires s[5] == 0x01 && s[6] == 0xA1 && s[7] == 0x00 && s[8] == 0x05 && s[9] == 0x01
    requires UsageRun(s, 10, 16)
    ensures Walk(s, 0, InitialState) == Walk(s, 42, UsagesState)
  {
    ReadGamepadHeader(s);
    WalkUsageRun(s, 10, 16, HeaderState);
  }

  lemma ReportDescrHead()
    ensures Walk(ReportDescr, 0, InitialState) == Walk(ReportDescr, 42, UsagesState)
  {
    AxisUsagesRun();
    ReadHeaderAndUsages(ReportDescr);
  }

  lemma ReportDescrTail()
    ensures Walk(ReportDescr, 42, UsagesState) == Some(ReportDescrState)
  {
    ReadAxisGlobals(ReportDescr);
    ReadInput(ReportDescr);
    ReadEndCollections(ReportDescr);
  }

  /** REPORT_DESCR is a well-formed descriptor: it reads completely, closes both collections it
      opens, and declares one Input item of sixteen usages, each a 16-bit field with logical
      range -500..500, under Usage Page Generic Desktop. */
  lemma ReportDescrLayout()
    ensures |ReportDescr| == 56
    ensures Parse(ReportDescr) == Some(ReportDescrState)
  {
    ReportDescrHead();
    ReportDescrTail();
  }

  /** REPORT_DESCR declares an input report of 16 fields of 16 bits: 256 bits, 32 bytes. */
  lemma ReportDescrInputBits()
    ensures Parse(ReportDescr).Some?
    ensures InputReportBits(Parse(ReportDescr).value.inputs) == 8 * 32
  {
    ReportDescrLayout();
    assert ReportDescrState.inputs == [AxesField];
  }
}
