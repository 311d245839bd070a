/** The tape and schedule files: written by Rust, read back by Rust and by Java. */
module ReplayText {
  import opened ReplayScheduler
  import opened InputTape
  import opened EventKinds
  import opened Options
  import opened Utf8
  import F = ReplayFidelity
  import P = ReplayProtocol
  import Pages = Pagination

  datatype Result<T> = Ok(value: T) | Malformed

  // Lines of a text file.

  predicate Free(s: string, c: char) {
    forall i :: 0 <= i < |s| ==> s[i] != c
  }

  /** A text without line terminators of either language. */
  predicate OneLine(s: string) {
    Free(s, '\n') && Free(s, '\r')
  }

  function Join(lines: seq<string>): string {
    if lines == [] then "" else Join(lines[..|lines| - 1]) + lines[|lines| - 1] + "\n"
  }

  predicate IsTab(c: char) { c == '\t' }

  predicate IsLineFeed(c: char) { c == '\n' }

  predicate IsTerminator(c: char) { c == '\n' || c == '\r' }

  predicate IsEmpty(line: string) { line == "" }

  function IndexOf(s: string, stop: char -> bool): (n: nat)
    ensures n <= |s| && (n < |s| ==> stop(s[n])) && forall i :: 0 <= i < n ==> !stop(s[i])
  {
    if s == "" || stop(s[0]) then 0 else 1 + IndexOf(s[1..], stop)
  }

  /** Rust's `str::lines`: a line ends at a line feed, whose preceding carriage return goes with it. */
  function RustLines(text: string): seq<string> {
    var n := IndexOf(text, IsLineFeed);
    if text == "" then []
    else if n == |text| then [text]
    else
      var body := if n > 0 && text[n - 1] == '\r' then text[..n - 1] else text[..n];
      [body] + RustLines(text[n + 1..])
  }

  /** Java's `Files.readAllLines`: a line ends at a line feed, a carriage return, or both in turn. */
  function JavaLines(text: string): seq<string> {
    var n := IndexOf(text, IsTerminator);
    if text == "" then []
    else if n == |text| then [text]
    else
      var next := if text[n] == '\r' && n + 1 < |text| && text[n + 1] == '\n' then n + 2 else n + 1;
      [text[..n]] + JavaLines(text[next..])
  }

  lemma {:induction false} JoinFront(lines: seq<string>)
    requires lines != []
    ensures Join(lines) == lines[0] + "\n" + Join(lines[1..])
  {
    var n := |lines| - 1;
    if n > 0 {
      JoinFront(lines[..n]);
      assert lines[..n][1..] == lines[1..][..n - 1];
    }
  }

  lemma JoinEmpty(lines: seq<string>)
    ensures Join(lines) == "" <==> lines == []
  {
  }

  lemma JoinBack(lines: seq<string>, line: string)
    ensures Join(lines + [line]) == Join(lines) + line + "\n"
  {
    assert (lines + [line])[..|lines|] == lines;
  }

  lemma FirstTerminator(line: string, rest: string)
    requires OneLine(line)
    ensures var text := line + "\n" + rest;
      && IndexOf(text, IsLineFeed) == |line| && IndexOf(text, IsTerminator) == |line|
      && text[|line|] == '\n' && text[..|line|] == line && text[|line| + 1..] == rest
  {
    var text, n := line + "\n" + rest, |line|;
    assert text[n] == '\n';
    assert forall i :: 0 <= i < n ==> text[i] == line[i];
  }

  lemma FirstLine(line: string, rest: string)
    requires OneLine(line)
    ensures RustLines(line + "\n" + rest) == [line] + RustLines(rest)
    ensures JavaLines(line + "\n" + rest) == [line] + JavaLines(rest)
  {
    FirstTerminator(line, rest);
    var text := line + "\n" + rest;
    assert |line| > 0 ==> text[|line| - 1] == line[|line| - 1];
  }

  /** Both languages read back the lines that were written. */
  lemma {:induction false} LinesOfJoin(lines: seq<string>)
    requires forall i :: 0 <= i < |lines| ==> OneLine(lines[i])
    ensures RustLines(Join(lines)) == lines && JavaLines(Join(lines)) == lines
  {
    if lines != [] {
      JoinFront(lines);
      FirstLine(lines[0], Join(lines[1..]));
      LinesOfJoin(lines[1..]);
    }
  }

  /** The text with another line ending. */
  function JoinCrLf(lines: seq<string>): string {
    if lines == [] then "" else lines[0] + "\r\n" + JoinCrLf(lines[1..])
  }

  lemma {:induction false} FirstLineCrLf(line: string, rest: string)
    requires OneLine(line)
    ensures RustLines(line + "\r\n" + rest) == [line] + RustLines(rest)
    ensures JavaLines(line + "\r\n" + rest) == [line] + JavaLines(rest)
  {
    var text, n := line + "\r\n" + rest, |line|;
    assert text[n] == '\r' && text[n + 1] == '\n' && text[..n] == line && text[n + 2..] == rest;
    assert forall i :: 0 <= i < n ==> text[i] == line[i];
    assert IndexOf(text, IsTerminator) == n && IndexOf(text, IsLineFeed) == n + 1;
  }

  /** Lines that end in a carriage return and a line feed, and a last line without an ending, are read
      alike by both languages. */
  lemma {:induction false} LinesOfCrLf(lines: seq<string>, last: string)
    requires OneLine(last) && forall i :: 0 <= i < |lines| ==> OneLine(lines[i])
    ensures
      var read := if last == "" then lines else lines + [last];
      RustLines(JoinCrLf(lines) + last) == read && JavaLines(JoinCrLf(lines) + last) == read
  {
    var read := if last == "" then lines else lines + [last];
    if lines == [] {
      LinesOfOne(last);
      assert JoinCrLf(lines) + last == last && read == if last == "" then [] else [last];
    } else {
      var rest := JoinCrLf(lines[1..]) + last;
      assert JoinCrLf(lines) + last == lines[0] + "\r\n" + rest by {
        Regroup(lines[0] + "\r\n", JoinCrLf(lines[1..]), last);
      }
      var read' := if last == "" then lines[1..] else lines[1..] + [last];
      assert read == [lines[0]] + read';
      assert RustLines(rest) == read' && JavaLines(rest) == read' by {
        LinesOfCrLf(lines[1..], last);
      }
      FirstLineCrLf(lines[0], rest);
    }
  }

  lemma Regroup(a: string, b: string, c: string)
    ensures (a + b) + c == a + (b + c)
  {
  }

  lemma {:induction false} LinesOfOne(last: string)
    requires OneLine(last)
    ensures RustLines(last) == JavaLines(last) == if last == "" then [] else [last]
  {
  }

  /** A carriage return alone ends a line for Java but not for Rust. */
  lemma {:induction false} LoneReturn(line: string, rest: string)
    requires OneLine(line) && OneLine(rest) && rest != ""
    ensures JavaLines(line + "\r" + rest) == [line, rest] && RustLines(line + "\r" + rest) == [line + "\r" + rest]
  {
    var text, n := line + "\r" + rest, |line|;
    assert text[n] == '\r' && text[..n] == line && text[n + 1..] == rest;
    assert forall i :: 0 <= i < |text| ==> text[i] == if i < n then line[i] else if i == n then '\r' else rest[i - n - 1];
    assert IndexOf(text, IsTerminator) == n && IndexOf(text, IsLineFeed) == |text|;
    assert text[n + 1] == rest[0] && JavaLines(rest) == [rest];
  }

  // The tape.

  predicate Base64Char(c: char) {
    'a' <= c <= 'z' || 'A' <= c <= 'Z' || '0' <= c <= '9' || c in "+/="
  }

  predicate ValidEntry(e: TapeEntry) {
    && e.kind != "" && e.encoded != ""
    && Free(e.kind, '\t') && OneLine(e.kind)
    && forall i :: 0 <= i < |e.encoded| ==> Base64Char(e.encoded[i])
  }

  /** What the daemon accepts as an entry, character by character. */
  lemma {:induction false} ValidExactly(e: TapeEntry)
    ensures ValidEntry(e) <==>
      && e.kind != "" && e.encoded != ""
      && (forall c :: c in e.kind ==> c != '\t' && c != '\n' && c != '\r')
      && (forall c :: c in e.encoded ==>
            'a' <= c <= 'z' || 'A' <= c <= 'Z' || '0' <= c <= '9' || c == '+' || c == '/' || c == '=')
  {
    assert forall i :: 0 <= i < |e.kind| ==> e.kind[i] in e.kind;
    assert forall i :: 0 <= i < |e.encoded| ==> e.encoded[i] in e.encoded;
  }

  function EntryLine(e: TapeEntry): string {
    e.kind + "\t" + e.encoded
  }

  function EntryLines(entries: seq<TapeEntry>): seq<string> {
    seq(|entries|, i requires 0 <= i < |entries| => EntryLine(entries[i]))
  }

  ghost predicate AllValid(entries: seq<TapeEntry>) {
    forall i :: 0 <= i < |entries| ==> ValidEntry(entries[i])
  }

  function Keep(lines: seq<string>, dropped: string -> bool): seq<string> {
    if lines == [] then []
    else
      var n := |lines| - 1;
      Keep(lines[..n], dropped) + (if dropped(lines[n]) then [] else [lines[n]])
  }

  lemma {:induction false} KeptLine(lines: seq<string>, dropped: string -> bool, i: nat)
    requires i < |lines| && !dropped(lines[i])
    ensures lines[i] in Keep(lines, dropped)
  {
    var n := |lines| - 1;
    if i < n {
      KeptLine(lines[..n], dropped, i);
    }
  }

  lemma {:induction false} KeepAll(lines: seq<string>, dropped: string -> bool)
    requires forall i :: 0 <= i < |lines| ==> !dropped(lines[i])
    ensures Keep(lines, dropped) == lines
  {
    if lines != [] {
      KeepAll(lines[..|lines| - 1], dropped);
    }
  }

  /** `split_once('\t')`, and `split("\\t", 2)`. */
  function SplitTab(line: string): (r: Result<TapeEntry>)
    ensures r.Ok? ==> EntryLine(r.value) == line && Free(r.value.kind, '\t')
    ensures r.Malformed? ==> Free(line, '\t')
  {
    var n := IndexOf(line, IsTab);
    if n == |line| then Malformed else Ok(TapeEntry(line[..n], line[n + 1..]))
  }

  lemma SplitOfEntryLine(e: TapeEntry)
    requires Free(e.kind, '\t')
    ensures SplitTab(EntryLine(e)) == Ok(e)
  {
    var line, n := EntryLine(e), |e.kind|;
    assert line[n] == '\t' && line[..n] == e.kind && line[n + 1..] == e.encoded;
    assert forall i :: 0 <= i < n ==> line[i] == e.kind[i];
  }

  /** The agent's `append`, and the loop of `write_replay_inputs`: one line for each entry. The
      recording's INPUT events stand in when it holds no tape. */
  method WriteReplayInputs(inputs: seq<TapeEntry>, inputEvents: seq<TapeEntry>) returns (tape: Result<string>)
    ensures
      var source := if inputs != [] then inputs else inputEvents;
      tape == if AllValid(source) then Ok(Join(EntryLines(source))) else Malformed
  {
    var source := if inputs != [] then inputs else inputEvents;
    var text := "";
    for i := 0 to |source|
      invariant AllValid(source[..i]) && text == Join(EntryLines(source[..i]))
    {
      if !ValidEntry(source[i]) {
        return Malformed;
      }
      text := text + EntryLine(source[i]) + "\n";
      assert EntryLines(source[..i + 1])[..i] == EntryLines(source[..i]);
    }
    assert source[..|source|] == source;
    return Ok(text);
  }

  /** What it means to read `entries` off some lines. */
  ghost predicate Reads(lines: seq<string>, entries: seq<TapeEntry>) {
    lines == EntryLines(entries) && forall i :: 0 <= i < |entries| ==> Free(entries[i].kind, '\t')
  }

  /** Lines are read in one way only. */
  lemma ReadsOnce(lines: seq<string>, a: seq<TapeEntry>, b: seq<TapeEntry>)
    requires Reads(lines, a) && Reads(lines, b)
    ensures a == b
  {
    forall i | 0 <= i < |lines|
      ensures a[i] == b[i]
    {
      assert lines[i] == EntryLine(a[i]) && lines[i] == EntryLine(b[i]);
      SplitOfEntryLine(a[i]);
      SplitOfEntryLine(b[i]);
    }
  }

  lemma ReadingHasLine(lines: seq<string>, dropped: string -> bool, i: nat, entries: seq<TapeEntry>)
    requires i < |lines| && !dropped(lines[i]) && Reads(Keep(lines, dropped), entries)
    ensures SplitTab(lines[i]).Ok? && SplitTab(lines[i]).value in entries
  {
    KeptLine(lines, dropped, i);
    var kept := Keep(lines, dropped);
    var k :| 0 <= k < |kept| && kept[k] == lines[i];
    SplitOfEntryLine(entries[k]);
  }

  /** The daemon's reader fails exactly when some line that is not empty is no valid entry. */
  method RecordedInputs(text: string) returns (inputs: Result<seq<TapeEntry>>)
    ensures inputs.Ok? ==> Reads(Keep(RustLines(text), IsEmpty), inputs.value) && AllValid(inputs.value)
    ensures inputs.Malformed? ==> forall es :: Reads(Keep(RustLines(text), IsEmpty), es) ==> !AllValid(es)
  {
    var lines, read := RustLines(text), [];
    for i := 0 to |lines|
      invariant Reads(Keep(lines[..i], IsEmpty), read) && AllValid(read)
    {
      assert lines[..i + 1][..i] == lines[..i];
      if lines[i] != "" {
        var entry := SplitTab(lines[i]);
        if entry.Malformed? || !ValidEntry(entry.value) {
          forall es | Reads(Keep(lines, IsEmpty), es)
            ensures !AllValid(es)
          {
            ReadingHasLine(lines, IsEmpty, i, es);
          }
          return Malformed;
        }
        read := read + [entry.value];
      }
    }
    assert lines[..|lines|] == lines;
    return Ok(read);
  }

  /** The agent's reader fails exactly when some line that is not blank has no tab. */
  method ReplayTape(text: string) returns (entries: Result<seq<TapeEntry>>)
    ensures entries.Ok? ==> Reads(Keep(JavaLines(text), IsBlank), entries.value)
    ensures entries.Malformed? ==> forall es :: !Reads(Keep(JavaLines(text), IsBlank), es)
  {
    var lines, read := JavaLines(text), [];
    for i := 0 to |lines|
      invariant Reads(Keep(lines[..i], IsBlank), read)
    {
      assert lines[..i + 1][..i] == lines[..i];
      if !IsBlank(lines[i]) {
        var entry := SplitTab(lines[i]);
        if entry.Malformed? {
          forall es
            ensures !Reads(Keep(lines, IsBlank), es)
          {
            if Reads(Keep(lines, IsBlank), es) {
              ReadingHasLine(lines, IsBlank, i, es);
            }
          }
          return Malformed;
        }
        read := read + [entry.value];
      }
    }
    assert lines[..|lines|] == lines;
    return Ok(read);
  }

  lemma EntryLineShape(e: TapeEntry)
    requires ValidEntry(e)
    ensures OneLine(EntryLine(e)) && !IsEmpty(EntryLine(e)) && !IsBlank(EntryLine(e))
  {
    var line := EntryLine(e);
    var last := line[|line| - 1];
    assert last == e.encoded[|e.encoded| - 1] && Base64Char(last) && !IsWhitespace(last);
  }

  /** A written tape is read back by both languages. */
  lemma WrittenTapeReads(entries: seq<TapeEntry>)
    requires AllValid(entries)
    ensures Reads(Keep(RustLines(Join(EntryLines(entries))), IsEmpty), entries)
    ensures Reads(Keep(JavaLines(Join(EntryLines(entries))), IsBlank), entries)
  {
    var lines := EntryLines(entries);
    forall i | 0 <= i < |lines|
      ensures OneLine(lines[i]) && !IsEmpty(lines[i]) && !IsBlank(lines[i])
    {
      EntryLineShape(entries[i]);
    }
    LinesOfJoin(lines);
    KeepAll(lines, IsEmpty);
    KeepAll(lines, IsBlank);
  }

  /** From the recording agent's tape file through the daemon and back to the replaying agent: the
      entries arrive unchanged exactly when each has a proper kind and a non-empty payload. */
  method CarryTape(appended: seq<TapeEntry>) returns (replayed: Result<seq<TapeEntry>>)
    ensures replayed == Ok(appended) <==> AllValid(appended)
    ensures replayed == Ok(appended) <==> forall e :: e in appended ==>
      && e.kind != "" && e.encoded != ""
      && (forall c :: c in e.kind ==> c != '\t' && c != '\n' && c != '\r')
      && (forall c :: c in e.encoded ==>
            'a' <= c <= 'z' || 'A' <= c <= 'Z' || '0' <= c <= '9' || c == '+' || c == '/' || c == '=')
  {
    forall e | e in appended {
      ValidExactly(e);
    }
    var inputs := RecordedInputs(Join(EntryLines(appended)));
    if AllValid(appended) {
      WrittenTapeReads(appended);
    }
    if inputs.Malformed? {
      return Malformed;
    }
    var tape := WriteReplayInputs(inputs.value, []);
    WrittenTapeReads(inputs.value);
    replayed := ReplayTape(tape.value);
    if AllValid(appended) {
      ReadsOnce(Keep(RustLines(Join(EntryLines(appended))), IsEmpty), appended, inputs.value);
    }
    if replayed.Ok? {
      ReadsOnce(Keep(JavaLines(tape.value), IsBlank), replayed.value, inputs.value);
    }
  }

  // The schedule.

  datatype StoredEvent = StoredEvent(kind: Kind, threadKey: string)

  function ScheduleLine(e: StoredEvent): string {
    ScheduleCategory(e.kind) + "\t" + Hex(Encode(e.threadKey))
  }

  function ScheduleLines(events: seq<StoredEvent>): seq<string> {
    if events == [] then []
    else
      var n := |events| - 1;
      ScheduleLines(events[..n]) + (if events[n].threadKey == "" then [] else [ScheduleLine(events[n])])
  }

  lemma ScheduleLinesBack(events: seq<StoredEvent>, i: nat)
    requires i < |events|
    ensures ScheduleLines(events[..i + 1])
         == if events[i].threadKey == "" then ScheduleLines(events[..i])
            else ScheduleLines(events[..i]) + [ScheduleLine(events[i])]
  {
    assert events[..i + 1][..i] == events[..i];
    assert ScheduleLines(events[..i]) + [] == ScheduleLines(events[..i]);
  }

  /** The entries a recording's events stand for; events without a key are skipped. */
  function Entries(events: seq<StoredEvent>): seq<Entry> {
    if events == [] then []
    else
      var n := |events| - 1;
      Entries(events[..n])
      + (if events[n].threadKey == "" then [] else [Entry(ScheduleCategory(events[n].kind), events[n].threadKey)])
  }

  lemma {:induction false} ScheduledIffKeyed(events: seq<StoredEvent>)
    ensures ScheduleLines(events) != [] <==> exists i :: 0 <= i < |events| && events[i].threadKey != ""
  {
    if events != [] {
      var n := |events| - 1;
      ScheduledIffKeyed(events[..n]);
      assert forall i :: 0 <= i < n ==> events[..n][i] == events[i];
    }
  }

  method WriteReplaySchedule(events: seq<StoredEvent>) returns (schedule: string, scheduled: bool)
    ensures schedule == Join(ScheduleLines(events))
    ensures scheduled <==> exists i :: 0 <= i < |events| && events[i].threadKey != ""
  {
    schedule := "";
    for i := 0 to |events|
      invariant schedule == Join(ScheduleLines(events[..i]))
    {
      ScheduleLinesBack(events, i);
      if events[i].threadKey != "" {
        JoinBack(ScheduleLines(events[..i]), ScheduleLine(events[i]));
        schedule := schedule + ScheduleLine(events[i]) + "\n";
      }
    }
    assert events[..|events|] == events;
    ScheduledIffKeyed(events);
    JoinEmpty(ScheduleLines(events));
    scheduled := schedule != "";
  }

  /** One schedule line as the agent parses it. */
  function ParseScheduleLine(line: string): Result<Entry> {
    var fields := SplitTab(line);
    if fields.Malformed? then Malformed
    else
      var bytes := ParseHex(fields.value.encoded);
      if bytes.None? then Malformed else Ok(Entry(fields.value.kind, Decode(bytes.value)))
  }

  ghost predicate Parses(lines: seq<string>, entries: seq<Entry>) {
    |lines| == |entries| && forall i :: 0 <= i < |lines| ==> ParseScheduleLine(lines[i]) == Ok(entries[i])
  }

  lemma {:induction false} Unparsable(lines: seq<string>, i: nat)
    requires i < |lines| && !IsBlank(lines[i]) && ParseScheduleLine(lines[i]).Malformed?
    ensures forall es :: !Parses(Keep(lines, IsBlank), es)
  {
    KeptLine(lines, IsBlank, i);
  }

  lemma {:induction false} ParsesMore(lines: seq<string>, i: nat, read: seq<Entry>, entry: Entry)
    requires i < |lines| && Parses(Keep(lines[..i], IsBlank), read)
    requires !IsBlank(lines[i]) ==> ParseScheduleLine(lines[i]) == Ok(entry)
    ensures Parses(Keep(lines[..i + 1], IsBlank), if IsBlank(lines[i]) then read else read + [entry])
  {
    assert lines[..i + 1][..i] == lines[..i];
  }

  method ParseSchedule(text: string) returns (entries: Result<seq<Entry>>)
    ensures entries.Ok? ==> Parses(Keep(JavaLines(text), IsBlank), entries.value)
    ensures entries.Malformed? ==> forall es :: !Parses(Keep(JavaLines(text), IsBlank), es)
  {
    var lines, read := JavaLines(text), [];
    for i := 0 to |lines|
      invariant Parses(Keep(lines[..i], IsBlank), read)
    {
      if IsBlank(lines[i]) {
        ParsesMore(lines, i, read, Entry("", ""));
      } else {
        var entry := ParseScheduleLine(lines[i]);
        if entry.Malformed? {
          Unparsable(lines, i);
          return Malformed;
        }
        ParsesMore(lines, i, read, entry.value);
        read := read + [entry.value];
      }
    }
    assert lines[..|lines|] == lines;
    return Ok(read);
  }

  predicate CategoryText(s: string) {
    s != "" && forall i :: 0 <= i < |s| ==> s[i] == '_' || 'A' <= s[i] <= 'Z'
  }

  lemma CategoryTextShape(s: string)
    requires CategoryText(s)
    ensures Free(s, '\t') && OneLine(s) && !IsWhitespace(s[0])
  {
  }

  lemma CategoryShape(kind: Kind)
    ensures CategoryText(ScheduleCategory(kind))
  {
  }

  lemma {:induction false} KeyedLineParses(category: string, key: string)
    requires Free(category, '\t')
    ensures ParseScheduleLine(category + "\t" + Hex(Encode(key))) == Ok(Entry(category, key))
  {
    SplitOfEntryLine(TapeEntry(category, Hex(Encode(key))));
    ParseHexOfHex(Encode(key));
    DecodeEncode(key);
  }

  lemma {:induction false} KeyedLineShape(category: string, bytes: seq<byte>)
    requires category != "" && OneLine(category) && !IsWhitespace(category[0])
    ensures OneLine(category + "\t" + Hex(bytes)) && !IsBlank(category + "\t" + Hex(bytes))
  {
    var line := category + "\t" + Hex(bytes);
    ParseHexOfHex(bytes);
    assert line[0] == category[0];
    forall i | 0 <= i < |line|
      ensures line[i] != '\n' && line[i] != '\r'
    {
      assert line[i] == if i < |category| then category[i] else if i == |category| then '\t' else Hex(bytes)[i - |category| - 1];
    }
  }

  lemma ScheduleLineParses(e: StoredEvent)
    ensures ParseScheduleLine(ScheduleLine(e)) == Ok(Entry(ScheduleCategory(e.kind), e.threadKey))
    ensures OneLine(ScheduleLine(e)) && !IsBlank(ScheduleLine(e))
  {
    CategoryShape(e.kind);
    CategoryTextShape(ScheduleCategory(e.kind));
    KeyedLineParses(ScheduleCategory(e.kind), e.threadKey);
    KeyedLineShape(ScheduleCategory(e.kind), Encode(e.threadKey));
  }

  lemma {:induction false} ScheduleLinesParse(events: seq<StoredEvent>)
    ensures Parses(ScheduleLines(events), Entries(events))
    ensures forall i :: 0 <= i < |ScheduleLines(events)| ==>
      OneLine(ScheduleLines(events)[i]) && !IsBlank(ScheduleLines(events)[i])
  {
    if events != [] {
      ScheduleLinesParse(events[..|events| - 1]);
      ScheduleLineParses(events[|events| - 1]);
    }
  }

  lemma ParsesOnce(lines: seq<string>, a: seq<Entry>, b: seq<Entry>)
    requires Parses(lines, a) && Parses(lines, b)
    ensures a == b
  {
    assert forall i :: 0 <= i < |lines| ==> Ok(a[i]) == ParseScheduleLine(lines[i]) == Ok(b[i]);
  }

  lemma WrittenScheduleParses(events: seq<StoredEvent>)
    ensures Parses(Keep(JavaLines(Join(ScheduleLines(events))), IsBlank), Entries(events))
  {
    ScheduleLinesParse(events);
    LinesOfJoin(ScheduleLines(events));
    KeepAll(ScheduleLines(events), IsBlank);
  }

  /** The agent reads the schedule the daemon meant. */
  method CarrySchedule(events: seq<StoredEvent>) returns (expected: Result<seq<Entry>>)
    ensures expected == Ok(Entries(events))
  {
    var text, _ := WriteReplaySchedule(events);
    expected := ParseSchedule(text);
    WrittenScheduleParses(events);
    if expected.Ok? {
      ParsesOnce(Keep(JavaLines(text), IsBlank), expected.value, Entries(events));
    }
  }

  /** The raw types whose schedule category is the category the agent announces. */
  const KNOWN_TYPES: set<string> := {
    "TEST_START", "TEST_FINISH", "LINE", "WRITE", "READ", "MONITOR", "INPUT", "CHECKPOINT", "CAPTURE", "NOTE",
    "SPAN_START", "SPAN_VALUE", "SPAN_END", "CALL", "METHOD_ENTER", "METHOD_EXIT", "OUTPUT"
  }

  /** A type outside the list, such as CAPABILITY, is scheduled as OUTPUT but announced as itself. */
  lemma CategoryAgrees(rawType: string)
    ensures ScheduleCategory(KindOf(rawType)) == Category(rawType) <==> rawType in KNOWN_TYPES
  {
  }

  function Stored(events: seq<F.Recorded>, threads: P.ThreadId -> JvmThread): seq<StoredEvent> {
    seq(|events|, i requires 0 <= i < |events| =>
      StoredEvent(KindOf(events[i].rawType), ThreadKey(threads(events[i].thread))))
  }

  lemma {:induction false} ScheduleInOrder(events: seq<F.Recorded>, threads: P.ThreadId -> JvmThread)
    ensures Entries(Stored(events, threads)) == F.Schedule(events, threads)
    ensures |F.Schedule(events, threads)| == |events|
  {
    if events != [] {
      var n := |events| - 1;
      ScheduleInOrder(events[..n], threads);
      assert Stored(events, threads)[..n] == Stored(events[..n], threads);
      AgentKeyNotEmpty(threads(events[n].thread));
    }
  }

  lemma AgentKeyNotEmpty(thread: JvmThread)
    ensures ThreadKey(thread) != ""
  {
  }

  lemma {:induction false} ScheduleAt(events: seq<F.Recorded>, threads: P.ThreadId -> JvmThread, i: nat)
    requires i < |events| == |F.Schedule(events, threads)|
    ensures F.Schedule(events, threads)[i]
         == Entry(ScheduleCategory(KindOf(events[i].rawType)), ThreadKey(threads(events[i].thread)))
  {
    var n := |events| - 1;
    AgentKeyNotEmpty(threads(events[n].thread));
    if i < n {
      ScheduleAt(events[..n], threads, i);
    }
  }

  /** The schedule of the replay protocol is the one that reaches the agent as text; an entry of it
      is what the replaying agent will announce exactly when the event's type is a known one. */
  lemma ScheduleAnnounces(events: seq<F.Recorded>, threads: P.ThreadId -> JvmThread, i: nat)
    requires i < |events|
    ensures Entries(Stored(events, threads)) == F.Schedule(events, threads)
    ensures |F.Schedule(events, threads)| == |events|
    ensures
      F.Schedule(events, threads)[i] == Entry(Category(events[i].rawType), ThreadKey(threads(events[i].thread)))
      <==> events[i].rawType in KNOWN_TYPES
  {
    ScheduleInOrder(events, threads);
    ScheduleAt(events, threads, i);
    CategoryAgrees(events[i].rawType);
  }

  // What a recording keeps.

  const PAGE_EVENTS: nat := 100_000
  const PAGE_BYTES: nat := 64 * 1024 * 1024

  function EventRows(sizes: seq<nat>): seq<Pages.Event> {
    seq(|sizes|, i requires 0 <= i < |sizes| => Pages.Event(i, "", sizes[i]))
  }

  lemma {:induction false} AllRowsMatch(sizes: seq<nat>)
    ensures Pages.Query(EventRows(sizes), None, -1) == EventRows(sizes)
  {
    Pages.AllLater(EventRows(sizes), -1);
  }

  lemma {:induction false} SchedulePrefix(events: seq<F.Recorded>, threads: P.ThreadId -> JvmThread, n: nat)
    requires n <= |events|
    ensures F.Schedule(events[..n], threads) <= F.Schedule(events, threads)
  {
    if n < |events| {
      var m := |events| - 1;
      SchedulePrefix(events[..m], threads, n);
      assert events[..m][..n] == events[..n];
    } else {
      assert events[..n] == events;
    }
  }

  /** A recording keeps the first page of its events and its whole tape. What reaches the replaying
      agent is then the schedule of the kept events, a prefix of the recording's schedule, and the
      tape exactly when every entry is valid: the premises of input fidelity. All events are kept
      when they fit the page. `sizes` are the sizes of the stored events. */
  method CarryRecording(recording: F.Recording, threads: P.ThreadId -> JvmThread, sizes: seq<nat>)
    returns (kept: nat, expected: Result<seq<Entry>>, tape: Result<seq<TapeEntry>>)
    requires |sizes| == |recording.events|
    ensures kept <= |recording.events|
    ensures expected == Ok(F.Schedule(recording.events[..kept], threads))
    ensures expected.value <= F.Schedule(recording.events, threads)
    ensures kept == |recording.events| <==>
      |sizes| <= 100_000 && (|sizes| <= 1 || Pages.Bytes(EventRows(sizes)) <= 67_108_864)
    ensures recording.events != [] ==> kept > 0
    ensures tape == Ok(recording.tape) <==> AllValid(recording.tape)
  {
    var page := Pages.EventsMatching(EventRows(sizes), None, None, PAGE_EVENTS, PAGE_BYTES);
    AllRowsMatch(sizes);
    kept := |page.items|;
    if kept == |sizes| {
      assert page.items == EventRows(sizes);
    } else if kept < PAGE_EVENTS {
      BytesOfPrefix(EventRows(sizes), kept + 1);
    }
    expected := CarrySchedule(Stored(recording.events[..kept], threads));
    ScheduleInOrder(recording.events[..kept], threads);
    SchedulePrefix(recording.events, threads, kept);
    tape := CarryTape(recording.tape);
  }

  lemma {:induction false} BytesOfPrefix(events: seq<Pages.Event>, n: nat)
    requires n <= |events|
    ensures Pages.Bytes(events[..n]) <= Pages.Bytes(events)
  {
    if n < |events| {
      var m := |events| - 1;
      BytesOfPrefix(events[..m], n);
      assert events[..m][..n] == events[..n];
    } else {
      assert events[..n] == events;
    }
  }
}
