/** Event names on the two sides of a recording: the raw types the JVM agent writes, the kinds the
    daemon stores, and the categories the daemon writes into a replay schedule. */
module EventKinds {

  datatype Kind =
    | TestStart | Line | Call | Write | Read | Monitor | TestFinish | Output | Input
    | Checkpoint | Capture | Note | SpanStart | SpanValue | SpanEnd

  function KindOf(rawType: string): Kind {
    match rawType
    case "TEST_START" => TestStart
    case "TEST_FINISH" => TestFinish
    case "LINE" => Line
    case "WRITE" => Write
    case "READ" => Read
    case "MONITOR" => Monitor
    case "INPUT" => Input
    case "CHECKPOINT" => Checkpoint
    case "CAPTURE" => Capture
    case "NOTE" => Note
    case "SPAN_START" => SpanStart
    case "SPAN_VALUE" => SpanValue
    case "SPAN_END" => SpanEnd
    case "CALL" => Call
    case "METHOD_ENTER" => Call
    case "METHOD_EXIT" => Call
    case _ => Output
  }

  function ScheduleCategory(kind: Kind): string {
    match kind
    case TestStart => "TEST_START"
    case Line => "LINE"
    case Call => "CALL"
    case Write => "WRITE"
    case Read => "READ"
    case Monitor => "MONITOR"
    case TestFinish => "TEST_FINISH"
    case Output => "OUTPUT"
    case Input => "INPUT"
    case Checkpoint => "CHECKPOINT"
    case Capture => "CAPTURE"
    case Note => "NOTE"
    case SpanStart => "SPAN_START"
    case SpanValue => "SPAN_VALUE"
    case SpanEnd => "SPAN_END"
  }
}
