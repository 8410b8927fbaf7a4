/**
 * The input report the gamepad sends (get_report in src/hid.rs): sixteen channel times, each
 * centred on 1000 as a 16-bit signed number and written little-endian into 32 bytes.
 */
module InputReport {
  import opened Wire
  import ReportDescriptor

  /** Axes in a report, and bytes in a report. */
  const AxisCount: nat := 16
  const ReportLength: nat := 32

  /** The channel time that reports as 0. */
  const AxisCenter: int := 1000

  const I16Range: int := 0x1_0000

  predicate IsI16(v: int)
  {
    -0x8000 <= v < 0x8000
  }

  /** Rust's `x as i16`: the low 16 bits of x read as two's complement. The same wrap-around is
      what i16 arithmetic does when it overflows in a build without overflow checks. */
  function AsI16(x: int): (r: int)
    ensures IsI16(r)
    ensures (r - x) % I16Range == 0
    ensures IsI16(x) ==> r == x
  {
    var low := x % I16Range;
    if low >= 0x8000 then low - I16Range else low
  }

  /** One axis as the report carries it: `(a as i16) - 1000` in 16-bit arithmetic. */
  function Normalize(a: u32): (r: int)
    ensures IsI16(r)
    ensures (r - (a as int - AxisCenter)) % I16Range == 0
  {
    AsI16(AsI16(a as int) - AxisCenter)
  }

  /** `i16::to_le_bytes`: the two's complement bits of v, low byte first. */
  function LeBytes(v: int): (bytes: seq<u8>)
    requires IsI16(v)
    ensures |bytes| == 2
  {
    var bits := v % I16Range;
    [(bits % 0x100) as u8, (bits / 0x100) as u8]
  }

  /** `i16::from_le_bytes`, the way a host reads a field of the report back. */
  function FromLeBytes(bytes: seq<u8>): (v: int)
    requires |bytes| == 2
    ensures IsI16(v)
  {
    AsI16(bytes[0] as int + 0x100 * bytes[1] as int)
  }

  lemma LeBytesRoundTrip(v: int)
    requires IsI16(v)
    ensures FromLeBytes(LeBytes(v)) == v
  {
    var bits := v % I16Range;
    assert bits % 0x100 + 0x100 * (bits / 0x100) == bits;
  }

  /** The report for the given axes, two bytes per axis in order. */
  function ReportBytes(axes: seq<u32>): (report: seq<u8>)
    ensures |report| == 2 * |axes|
  {
    if axes == [] then [] else LeBytes(Normalize(axes[0])) + ReportBytes(axes[1..])
  }

  /** get_report: fills a zeroed 32-byte buffer axis by axis. */
  method GetReport(axes: seq<u32>) returns (report: seq<u8>)
    requires |axes| == AxisCount
    ensures report == ReportBytes(axes)
    ensures |report| == ReportLength
  {
    var buffer := new u8[ReportLength](_ => 0);
    for i := 0 to AxisCount
      invariant buffer[..2 * i] == ReportBytes(axes[..i])
    {
      var bytes := LeBytes(Normalize(axes[i]));
      buffer[2 * i] := bytes[0];
      buffer[2 * i + 1] := bytes[1];
      ReportBytesAppend(axes[..i], axes[i]);
      assert axes[..i + 1] == axes[..i] + [axes[i]];
      assert buffer[..2 * (i + 1)] == buffer[..2 * i] + bytes;
    }
    assert axes[..AxisCount] == axes;
    report := buffer[..];
  }

  lemma {:induction false} ReportBytesAppend(axes: seq<u32>, a: u32)
    ensures ReportBytes(axes + [a]) == ReportBytes(axes) + LeBytes(Normalize(a))
    decreases |axes|
  {
    if axes == [] {
      assert [] + [a] == [a];
    } else {
      assert (axes + [a])[1..] == axes[1..] + [a];
      ReportBytesAppend(axes[1..], a);
    }
  }

  /** Bytes 2i and 2i + 1 of the report are the little-endian bytes of axis i, normalized. */
  lemma {:induction false} ReportBytesAt(axes: seq<u32>, i: nat)
    requires i < |axes|
    ensures ReportBytes(axes)[2 * i..2 * i + 2] == LeBytes(Normalize(axes[i]))
    decreases i
  {
    if i > 0 {
      ReportBytesAt(axes[1..], i - 1);
      var head := LeBytes(Normalize(axes[0]));
      assert ReportBytes(axes) == head + ReportBytes(axes[1..]);
      assert ReportBytes(axes)[2 * i..2 * i + 2] == ReportBytes(axes[1..])[2 * (i - 1)..2 * (i - 1) + 2];
    }
  }

  /** A host reading field i of the report gets axis i minus 1000, in 16-bit arithmetic. */
  lemma ReportDecodes(axes: seq<u32>, i: nat)
    requires i < |axes|
    ensures FromLeBytes(ReportBytes(axes)[2 * i..2 * i + 2]) == Normalize(axes[i])
  {
    var field := ReportBytes(axes)[2 * i..2 * i + 2];
    ReportBytesAt(axes, i);
    LeBytesRoundTrip(Normalize(axes[i]));
    assert field == LeBytes(Normalize(axes[i]));
  }

  /** A channel time within 500 of the centre is reported exactly, as a value the report
      descriptor's logical range -500..500 covers. */
  lemma CenteredAxisInLogicalRange(a: u32)
    requires AxisCenter - 500 <= a as int <= AxisCenter + 500
    ensures FromLeBytes(LeBytes(Normalize(a))) == a as int - AxisCenter
    ensures ReportDescriptor.AxisGlobals.logicalMinimum <= FromLeBytes(LeBytes(Normalize(a))) <= ReportDescriptor.AxisGlobals.logicalMaximum
  {
    LeBytesRoundTrip(Normalize(a));
  }

  /** Sixteen centred channels give an all-zero report. */
  lemma {:induction false} CenteredReportIsZero(axes: seq<u32>)
    requires forall k :: 0 <= k < |axes| ==> axes[k] as int == AxisCenter
    ensures forall k :: 0 <= k < |ReportBytes(axes)| ==> ReportBytes(axes)[k] == 0
    decreases |axes|
  {
    if axes != [] {
      CenteredReportIsZero(axes[1..]);
      assert LeBytes(Normalize(axes[0])) == [0, 0];
    }
  }

  /** The report is exactly as long as the input report REPORT_DESCR declares. */
  lemma ReportMatchesDescriptor(axes: seq<u32>)
    requires |axes| == AxisCount
    ensures ReportDescriptor.Parse(ReportDescriptor.ReportDescr).Some?
    ensures 8 * |ReportBytes(axes)| == ReportDescriptor.InputReportBits(ReportDescriptor.Parse(ReportDescriptor.ReportDescr).value.inputs)
  {
    ReportDescriptor.ReportDescrInputBits();
  }
}
