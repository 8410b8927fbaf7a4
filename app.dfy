/**
 * The firmware's report loop (the `report` task and the `ppm_falling` handler in src/main.rs),
 * stripped of its scheduler: a task that every 84 000 cycles takes the newest PPM frame, if the
 * decoder has one, and writes the report for its first sixteen channels to the HID endpoint.
 */
module App {
  import opened Wire
  import InputReport

  /** Core clock in MHz, and the report period in core cycles: one millisecond. */
  const CoreFrequencyMhz: nat := 84
  const ReportPeriod: nat := 84_000

  /** Channels a decoded PPM frame holds. */
  const FrameChannels: nat := 20

  /** The 32-bit cycle counter wraps around. */
  const CycleRange: int := 0x1_0000_0000

  type Channels = s: seq<u32> | |s| == FrameChannels witness [0, 0, 0, 0, 0, 0, 0, 0, 0, 0, 0, 0, 0, 0, 0, 0, 0, 0, 0, 0]

  /** A decoded PPM frame: twenty channel times in microseconds and how many channels the
      decoder saw. */
  datatype Frame = Frame(chanValues: Channels, chanCount: nat)

  /** The frame the report task holds before the decoder yields one: every channel at 1400,
      sixteen channels. */
  const InitialFrame := Frame([1400, 1400, 1400, 1400, 1400, 1400, 1400, 1400, 1400, 1400,
                                1400, 1400, 1400, 1400, 1400, 1400, 1400, 1400, 1400, 1400], 16)

  /** `instant + cycles` on the cycle counter. */
  function AddCycles(instant: u32, cycles: nat): (r: u32)
    ensures r as int == (instant as int + cycles) % CycleRange
  {
    ((instant as int + cycles) % CycleRange) as u32
  }

  // ---------------------------------------------------------------------------
  // The report task as a state machine
  // ---------------------------------------------------------------------------

  /** The report task's state: the last frame it received and the instant its next run is scheduled for. */
  datatype TaskState = TaskState(lastFrame: Frame, nextDeadline: u32)

  /** The state `init` leaves: the initial frame, first run one period after start-up. */
  function InitialState(start: u32): (st: TaskState)
    ensures st.lastFrame == InitialFrame
    ensures st.nextDeadline as int == (start as int + ReportPeriod) % CycleRange
  {
    TaskState(InitialFrame, AddCycles(start, ReportPeriod))
  }

  /** One run of the task, given what the decoder's next_frame returned: the run re-arms itself
      one period after the instant it was scheduled for, and a new frame replaces the old one. */
  function Tick(st: TaskState, next: Option<Frame>): (r: TaskState)
    ensures r.lastFrame == (if next.Some? then next.value else st.lastFrame)
    ensures r.nextDeadline as int == (st.nextDeadline as int + ReportPeriod) % CycleRange
  {
    TaskState(if next.Some? then next.value else st.lastFrame, AddCycles(st.nextDeadline, ReportPeriod))
  }

  /** The axes a run reports: the first sixteen channels of the frame it holds. */
  function Axes(f: Frame): (axes: seq<u32>)
    ensures |axes| == InputReport.AxisCount
  {
    f.chanValues[..InputReport.AxisCount]
  }

  /** The report a run writes, from the frame it holds after taking the decoder's frame. */
  function Sent(st: TaskState): (report: seq<u8>)
    ensures |report| == InputReport.ReportLength
  {
    InputReport.ReportBytes(Axes(st.lastFrame))
  }

  /** The newest frame among the decoder's answers, or `otherwise` if there is none. */
  function LatestFrame(inputs: seq<Option<Frame>>, otherwise: Frame): (f: Frame)
    ensures f == otherwise || exists k :: 0 <= k < |inputs| && inputs[k] == Some(f)
    ensures (forall k :: 0 <= k < |inputs| ==> inputs[k].None?) ==> f == otherwise
    ensures forall k :: 0 <= k < |inputs| && inputs[k].Some? && (forall j :: k < j < |inputs| ==> inputs[j].None?) ==> f == inputs[k].value
  {
    if inputs == [] then otherwise
    else if inputs[|inputs| - 1].Some? then inputs[|inputs| - 1].value
    else
      var prefix := inputs[..|inputs| - 1];
      assert forall k :: 0 <= k < |prefix| ==> prefix[k] == inputs[k];
      LatestFrame(prefix, otherwise)
  }

  lemma ModAddPeriod(x: int)
    ensures (x % CycleRange + ReportPeriod) % CycleRange == (x + ReportPeriod) % CycleRange
  {
  }

  /** The state after the runs that received `inputs` from the decoder, in order. After k runs
      the next deadline is start + (k + 1) periods on the cycle counter, however late each run
      actually started, and the frame held is the decoder's newest frame, unchanged, or the
      initial frame while the decoder has yielded none. */
  function Run(start: u32, inputs: seq<Option<Frame>>): (st: TaskState)
    ensures st.nextDeadline as int == (start as int + (|inputs| + 1) * ReportPeriod) % CycleRange
    ensures st.lastFrame == LatestFrame(inputs, InitialFrame)
    decreases |inputs|
  {
    if inputs == [] then InitialState(start)
    else
      var prefix := inputs[..|inputs| - 1];
      ModAddPeriod(start as int + (|prefix| + 1) * ReportPeriod);
      Tick(Run(start, prefix), inputs[|inputs| - 1])
  }

  /** Only channels 0 to 15 reach the report: channels 16 to 19 and the channel count do not. */
  lemma SentDependsOnAxesOnly(a: TaskState, b: TaskState)
    requires forall k :: 0 <= k < InputReport.AxisCount ==> a.lastFrame.chanValues[k] == b.lastFrame.chanValues[k]
    ensures Sent(a) == Sent(b)
  {
    assert Axes(a.lastFrame) == Axes(b.lastFrame);
  }

  /** Until the decoder yields a frame, every run reports each of the sixteen axes as +400. */
  lemma InitialFrameReports400(start: u32, inputs: seq<Option<Frame>>, i: nat)
    requires forall k :: 0 <= k < |inputs| ==> inputs[k].None?
    requires i < InputReport.AxisCount
    ensures InputReport.FromLeBytes(Sent(Run(start, inputs))[2 * i..2 * i + 2]) == 400
  {
    InputReport.ReportDecodes(Axes(InitialFrame), i);
  }

  /** The report task with its resources: the frame it holds, the instant of its next run, and
      the reports it has handed to HIDClass::write, whose result it discards. */
  class ReportTask {
    var lastFrame: Frame
    var nextDeadline: u32
    var written: seq<seq<u8>>

    function State(): TaskState
      reads this
    {
      TaskState(lastFrame, nextDeadline)
    }

    /** What `init` sets up when the system starts at `start`. */
    constructor (start: u32)
      ensures State() == InitialState(start) && written == []
    {
      lastFrame := InitialFrame;
      nextDeadline := AddCycles(start, ReportPeriod);
      written := [];
    }

    /** One run of the `report` task, started at `now` (which it does not read) with `next`
        the decoder's answer to next_frame. */
    method Report(now: u32, next: Option<Frame>)
      modifies this
      ensures State() == Tick(old(State()), next)
      ensures written == old(written) + [Sent(State())]
    {
      nextDeadline := AddCycles(nextDeadline, ReportPeriod);
      if next.Some? {
        lastFrame := next.value;
      }
      var report := InputReport.GetReport(lastFrame.chanValues[..InputReport.AxisCount]);
      written := written + [report];
    }
  }

  // ---------------------------------------------------------------------------
  // The edge handler
  // ---------------------------------------------------------------------------

  /** The timestamp ppm_falling hands the decoder for a cycle counter reading: whole microseconds. */
  function Timestamp(cycles: u32): (t: u32)
    ensures t as int <= U32_MAX / CoreFrequencyMhz
    ensures t as int * CoreFrequencyMhz <= cycles as int < (t as int + 1) * CoreFrequencyMhz
  {
    cycles / CoreFrequencyMhz as u32
  }

  lemma TimestampMonotone(a: u32, b: u32)
    requires a <= b
    ensures Timestamp(a) <= Timestamp(b)
  {
  }

  /** The timestamps for a sequence of counter readings. */
  function Timestamps(readings: seq<u32>): (ts: seq<u32>)
    ensures |ts| == |readings|
    ensures forall k :: 0 <= k < |readings| ==> ts[k] == Timestamp(readings[k])
  {
    if readings == [] then [] else Timestamps(readings[..|readings| - 1]) + [Timestamp(readings[|readings| - 1])]
  }

  predicate Sorted(s: seq<u32>)
  {
    forall i, j :: 0 <= i < j < |s| ==> s[i] <= s[j]
  }

  /** Non-decreasing counter readings give non-decreasing timestamps. */
  lemma TimestampsSorted(readings: seq<u32>)
    requires Sorted(readings)
    ensures Sorted(Timestamps(readings))
  {
    var ts := Timestamps(readings);
    forall i, j | 0 <= i < j < |ts|
      ensures ts[i] <= ts[j]
    {
      TimestampMonotone(readings[i], readings[j]);
    }
  }

  /** The decoder's input as the edge handler feeds it: the timestamp of every falling edge, in order. */
  class PulseInput {
    var pulses: seq<u32>

    constructor ()
      ensures pulses == []
    {
      pulses := [];
    }

    /** ppm_falling: reads the cycle counter and passes the timestamp to handle_pulse_start. */
    method PpmFalling(cycles: u32)
      modifies this
      ensures pulses == old(pulses) + [Timestamp(cycles)]
    {
      pulses := pulses + [Timestamp(cycles)];
    }
  }
}
