/**
 * The human-readable side of the event log: the type names and device labels
 * of the structured events, the line `_record` appends to `log` for each
 * event (`time=<clock, left-aligned in 3> | <description>`), `timeline()`,
 * and the header order of the CSV export.  Each line reads back to the
 * clock and the description it was made from, and the timeline splits back
 * into its lines.
 */
module SchedulerLog {
  import opened Wrappers
  import opened Text
  import opened SchedulerSpec

  /** The `event_type` string of each kind of event. */
  function EventTypeName(t: EventType): (name: string)
    ensures name != [] && forall c :: c in name ==> 'a' <= c <= 'z' || c == '_'
  {
    match t
    case Enqueue => "enqueue"
    case Arrival => "arrival"
    case Preempted => "preempted"
    case CpuToIo => "cpu_to_io"
    case CpuToReady => "cpu_to_ready"
    case IoToReady => "io_to_ready"
    case FinishedAll => "finished"
    case DispatchCpu => "dispatch_cpu"
    case DispatchIo => "dispatch_io"
  }

  /** Different kinds of event never share a type name. */
  lemma EventTypeNameInjective(a: EventType, b: EventType)
    requires EventTypeName(a) == EventTypeName(b)
    ensures a == b
  {
    var x, y := EventTypeName(a), EventTypeName(b);
    assert |x| == |y| && x[0] == y[0];
    if |x| > 5 {
      assert x[5] == y[5];
    }
    if |x| > 9 {
      assert x[9] == y[9];
    }
  }

  /** The `device` label of an event: `CPU<cid>` or `IO<did>`. */
  function DeviceLabel(d: Device): (r: string)
    ensures d.CpuDev? ==> |r| > 3 && r[..3] == "CPU" && r[3..] == NatToString(d.cid)
    ensures d.IoDev? ==> |r| > 2 && r[..2] == "IO" && r[2..] == NatToString(d.did)
  {
    match d
    case CpuDev(c) => "CPU" + NatToString(c)
    case IoDev(i) => "IO" + NatToString(i)
  }

  /** Two events name the same device only if they name the same resource. */
  lemma DeviceLabelInjective(a: Device, b: Device)
    requires DeviceLabel(a) == DeviceLabel(b)
    ensures a == b
  {
    assert DeviceLabel(a)[0] == DeviceLabel(b)[0];
    if a.CpuDev? && b.CpuDev? {
      DecimalOfNat(a.cid);
      DecimalOfNat(b.cid);
    } else if a.IoDev? && b.IoDev? {
      assert NatToString(a.did) == DeviceLabel(a)[2..] == NatToString(b.did);
      DecimalOfNat(a.did);
      DecimalOfNat(b.did);
    }
  }

  /** Python's `str()` of an optional device label. */
  function DeviceText(d: Option<Device>): string
  {
    match d
    case Some(x) => DeviceLabel(x)
    case None => "None"
  }

  /** The text after the pid in the `event` description of each kind of event. */
  function Phrase(t: EventType, d: Option<Device>): string
  {
    match t
    case Enqueue => " added to queue"
    case Arrival => " added to ready queue"
    case Preempted => " quantum expired"
    case CpuToIo => " finished CPU → wait queue"
    case CpuToReady => " finished CPU → ready queue"
    case IoToReady => " finished I/O → ready queue"
    case FinishedAll => " finished all bursts"
    case DispatchCpu => " dispatched to " + DeviceText(d)
    case DispatchIo => " dispatched to " + DeviceText(d)
  }

  /** The `event` description `step` and `add_process` write: the pid, then the phrase of its kind. */
  function Description(e: Event): string
  {
    NatToString(e.process) + Phrase(e.eventType, e.device)
  }

  lemma DeviceTextOneLine(d: Option<Device>)
    ensures '\n' !in DeviceText(d)
  {
    if d.Some? {
      var x := d.value;
      var n := if x.CpuDev? then x.cid else x.did;
      assert DeviceLabel(x) == (if x.CpuDev? then "CPU" else "IO") + NatToString(n);
      assert '\n' !in NatToString(n);
    }
  }

  lemma QueuePhrasesOneLine()
    ensures '\n' !in " added to queue" && '\n' !in " added to ready queue"
    ensures '\n' !in " quantum expired" && '\n' !in " dispatched to "
  {
  }

  lemma CompletionPhrasesOneLine()
    ensures '\n' !in " finished CPU → wait queue" && '\n' !in " finished CPU → ready queue"
    ensures '\n' !in " finished I/O → ready queue" && '\n' !in " finished all bursts"
  {
  }

  /** No phrase of a description breaks the line. */
  lemma PhraseOneLine(t: EventType, d: Option<Device>)
    ensures '\n' !in Phrase(t, d)
  {
    DeviceTextOneLine(d);
    QueuePhrasesOneLine();
    CompletionPhrasesOneLine();
  }

  /** The clock field of a log line, `time=` and the clock left-aligned in 3, and the blank before the bar. */
  function ClockHead(n: nat): string
  {
    "time=" + PadRight(NatToString(n), 3) + " "
  }

  /** The line `_record` appends to `log`: `time=<clock:<3> | <description>`. */
  function LogLine(e: Event): string
  {
    ClockHead(e.time) + "| " + Description(e)
  }

  /** A log line is one line of the timeline. */
  lemma LogLineOneLine(e: Event)
    ensures '\n' !in LogLine(e)
  {
    PhraseOneLine(e.eventType, e.device);
    assert '\n' !in NatToString(e.process);
    assert '\n' !in NatToString(e.time);
  }

  /** The log lines of a sequence of events, in order. */
  function LogLines(es: seq<Event>): (lines: seq<string>)
    ensures |lines| == |es| && forall k :: 0 <= k < |es| ==> lines[k] == LogLine(es[k])
  {
    seq(|es|, k requires 0 <= k < |es| => LogLine(es[k]))
  }

  /**
   * Reading a log line back: it starts with `time=`, the clock runs up to
   * the first `|`, and the description follows `| `.
   */
  function ParseLogLine(line: string): (r: Option<(int, string)>)
    ensures r.Some? ==> '|' in line && |r.value.1| <= |line|
  {
    var i := Find(line, '|');
    if 5 <= i && i + 1 < |line| && line[..5] == "time=" && line[i + 1] == ' ' then
      match PyInt(line[5..i])
      case Some(t) => Some((t, line[i + 2..]))
      case None => None
    else None
  }

  /** A log line reads back to the clock and the description it was written from. */
  lemma LogLineReadsBack(e: Event)
    ensures ParseLogLine(LogLine(e)) == Some((e.time as int, Description(e)))
  {
    ClockField(e.time);
    ParseJoined(ClockHead(e.time), Description(e), e.time);
  }

  /** The parser splits a line at its first `|`. */
  lemma ParseJoined(head: string, desc: string, n: int)
    requires '|' !in head && |head| >= 5 && head[..5] == "time=" && PyInt(head[5..]) == Some(n)
    ensures ParseLogLine(head + "| " + desc) == Some((n, desc))
  {
    var line := head + "| " + desc;
    var i := |head|;
    assert line == head + ("| " + desc);
    FindAt(head, "| " + desc, '|');
    assert line[..5] == head[..5] && line[i + 1] == ' ';
    assert line[5..i] == head[5..];
    assert line[i + 2..] == desc;
  }

  /** The clock field of a line: free of `|`, and read back by `int()` with its trailing blank. */
  lemma ClockField(n: nat)
    ensures var head := ClockHead(n);
            '|' !in head && |head| >= 5 && head[..5] == "time=" && PyInt(head[5..]) == Some(n as int)
  {
    var field := PadRight(NatToString(n), 3);
    var head := ClockHead(n);
    assert '|' !in NatToString(n);
    assert head[5..] == PadRight(NatToString(n), |field| + 1);
    PyIntPadded(n, |field| + 1);
  }

  /** `timeline()`: the log lines joined with newlines. */
  function Timeline(log: seq<string>): string
  {
    JoinWith(log, '\n')
  }

  /** The timeline of a non-empty log splits back into exactly its lines. */
  lemma TimelineSplits(es: seq<Event>)
    requires es != []
    ensures SplitOn(Timeline(LogLines(es)), '\n') == LogLines(es)
  {
    var lines := LogLines(es);
    forall k | 0 <= k < |lines| ensures '\n' !in lines[k] {
      LogLineOneLine(es[k]);
    }
    SplitJoin(lines, '\n');
  }

  /** The keys of a structured event record, in insertion order. */
  const EventKeys: seq<string> :=
    ["time", "event", "event_type", "process", "device", "ready_queue", "wait_queue", "cpus", "ios"]

  /**
   * The header row `export_csv` writes: the keys of the first event in their
   * order, and nothing at all when there are no events.
   */
  function CsvHeader(events: seq<Event>): (h: Option<seq<string>>)
    ensures h.None? <==> events == []
    ensures h.Some? ==> |h.value| == 9 && h.value[0] == "time" && h.value[1] == "event"
                        && h.value[2] == "event_type" && h.value[3] == "process" && h.value[4] == "device"
                        && h.value[5] == "ready_queue" && h.value[6] == "wait_queue" && h.value[7] == "cpus"
                        && h.value[8] == "ios"
    ensures h.Some? ==> forall a, b :: 0 <= a < b < |h.value| ==> h.value[a] != h.value[b]
  {
    if events == [] then None else Some(EventKeys)
  }
}
