/**
 The console writer that collapses consecutive identical lines into one row with a counter,
 and a reader of its plain output. A line's identity is its key, the line without its clock.
 */
module ConsoleCollapse {
  import opened Common
  import opened Text

  const DIM := "\U{001B}[2m"
  const RESET := "\U{001B}[0m"
  const CLEAR_EOL := "\U{001B}[0K"

  // ---- keys and counters ----

  predicate IsDigit(c: char) {
    '0' <= c <= '9'
  }

  /** A clock with `h` hour digits, followed by a blank. */
  predicate ClockAt(line: string, h: nat) {
    && h + 7 <= |line|
    && (forall i :: 0 <= i < h ==> IsDigit(line[i]))
    && line[h] == ':' && IsDigit(line[h + 1]) && IsDigit(line[h + 2])
    && line[h + 3] == ':' && IsDigit(line[h + 4]) && IsDigit(line[h + 5])
    && IsBlank(line[h + 6])
  }

  function ConsoleKeyOf(line: string): string {
    if ClockAt(line, 2) then line[9..] else if ClockAt(line, 1) then line[8..] else line
  }

  function Suffix(count: nat): string {
    " (×" + Decimal(count) + ")"
  }

  function RenderCount(line: string, count: nat, isTTY: bool): string {
    if isTTY then "\r" + line + DIM + Suffix(count) + RESET + CLEAR_EOL else line + Suffix(count)
  }

  predicate Digits(s: string, count: nat) {
    |s| == count && forall c :: c in s ==> c in "0123456789"
  }

  /** A line that starts with a clock: hours of one or two digits, minutes, seconds, and a blank. */
  ghost predicate Timed(line: string, hours: string, minutes: string, seconds: string, blank: char, rest: string) {
    && (Digits(hours, 1) || Digits(hours, 2)) && Digits(minutes, 2) && Digits(seconds, 2) && IsBlank(blank)
    && line == hours + ":" + minutes + ":" + seconds + [blank] + rest
  }

  /** The key is the line after its clock, if it starts with one, and otherwise the line itself. */
  lemma KeysExactly(line: string)
    ensures forall hours, minutes, seconds, blank, rest :: Timed(line, hours, minutes, seconds, blank, rest) ==> ConsoleKeyOf(line) == rest
    ensures ConsoleKeyOf(line) == line
            || exists hours, minutes, seconds, blank :: Timed(line, hours, minutes, seconds, blank, ConsoleKeyOf(line))
  {
    hide ClockAt, Timed;
    forall hours, minutes, seconds, blank, rest | Timed(line, hours, minutes, seconds, blank, rest)
      ensures ConsoleKeyOf(line) == rest
    {
      TimedKey(line, hours, minutes, seconds, blank, rest);
    }
    if ClockAt(line, 2) {
      KeyParts(line, 2, ConsoleKeyOf(line));
    } else if ClockAt(line, 1) {
      KeyParts(line, 1, ConsoleKeyOf(line));
    }
  }

  lemma KeyParts(line: string, h: nat, key: string)
    requires ClockAt(line, h) && 1 <= h <= 2 && key == line[h + 7..]
    ensures exists hours, minutes, seconds, blank :: Timed(line, hours, minutes, seconds, blank, key)
  {
    ClockParts(line, h);
  }

  lemma TimedKey(line: string, hours: string, minutes: string, seconds: string, blank: char, rest: string)
    requires Timed(line, hours, minutes, seconds, blank, rest)
    ensures ConsoleKeyOf(line) == rest
  {
    hide IsBlank;
    var h := |hours|;
    forall c | c in hours || c in minutes || c in seconds ensures IsDigit(c) {
      OneDigit(c);
    }
    assert line == hours + (":" + (minutes + (":" + (seconds + ([blank] + rest)))));
    assert line[..h] == hours && line[h + 1..h + 3] == minutes && line[h + 4..h + 6] == seconds;
    assert forall i :: 0 <= i < h ==> line[i] == hours[i];
    assert line[h] == ':' && line[h + 1] == minutes[0] && line[h + 2] == minutes[1] && line[h + 3] == ':';
    assert line[h + 4] == seconds[0] && line[h + 5] == seconds[1] && line[h + 6] == blank && line[h + 7..] == rest;
    assert ClockAt(line, h);
    assert h == 1 ==> line[1] == ':';
  }

  lemma ClockParts(line: string, h: nat)
    requires ClockAt(line, h) && 1 <= h <= 2
    ensures Timed(line, line[..h], line[h + 1..h + 3], line[h + 4..h + 6], line[h + 6], line[h + 7..])
  {
    hide IsBlank, IsDigit;
    forall c | c in line[..h] || c in line[h + 1..h + 3] || c in line[h + 4..h + 6] ensures c in "0123456789" {
      OneDigit(c);
    }
    assert line == line[..h] + ":" + line[h + 1..h + 3] + ":" + line[h + 4..h + 6] + [line[h + 6]] + line[h + 7..];
  }

  lemma OneDigit(c: char)
    ensures IsDigit(c) <==> c in "0123456789"
  {
    var digits := "0123456789";
    assert forall i: nat :: i < 10 ==> digits[i] as nat == '0' as nat + i;
    if '0' <= c <= '9' {
      assert digits[c as nat - '0' as nat] == c;
    }
  }

  /** How a count is shown: dimmed over the same row on a terminal, after the line when piped. */
  lemma CountersAre(line: string, count: nat)
    ensures RenderCount(line, count, false) == line + " (×" + Decimal(count) + ")"
    ensures RenderCount(line, count, true) == "\r" + line + "\U{001B}[2m (×" + Decimal(count) + ")\U{001B}[0m\U{001B}[0K"
    ensures DecimalValue(Decimal(count)) == count
  {
    DecimalReads(count);
    assert "\r" + line + DIM + Suffix(count) + RESET + CLEAR_EOL
        == "\r" + line + "\U{001B}[2m (×" + Decimal(count) + ")\U{001B}[0m\U{001B}[0K";
  }

  // ---- the writer ----

  datatype Pending = Pending(key: Option<string>, line: string, count: nat)

  const IDLE := Pending(None, "", 0)

  /** Sealing does nothing while no key, or the empty key, is pending. */
  predicate Sealable(p: Pending) {
    p.key.Some? && p.key.value != ""
  }

  function SealChunks(p: Pending, isTTY: bool): seq<string> {
    if !Sealable(p) then []
    else if isTTY then ["\n"]
    else if p.count > 1 then [RenderCount(p.line, p.count, false) + "\n"]
    else []
  }

  function Sealed(p: Pending): Pending {
    if Sealable(p) then IDLE else p
  }

  predicate IsMultiline(line: string) {
    '\n' in line
  }

  predicate Repeats(p: Pending, line: string) {
    !IsMultiline(line) && p.key == Some(ConsoleKeyOf(line))
  }

  function WriteChunks(p: Pending, isTTY: bool, line: string): seq<string> {
    if Repeats(p, line) then if isTTY then [RenderCount(p.line, p.count + 1, true)] else []
    else SealChunks(p, isTTY) + if isTTY && !IsMultiline(line) then [line] else [line + "\n"]
  }

  function Written(p: Pending, line: string): Pending {
    if Repeats(p, line) then p.(count := p.count + 1)
    else if IsMultiline(line) then Sealed(p)
    else Pending(Some(ConsoleKeyOf(line)), line, 1)
  }

  /** The chunks of writing lines one after another and sealing at the end. */
  function Chunks(p: Pending, isTTY: bool, lines: seq<string>): seq<string>
    decreases |lines|
  {
    if lines == [] then SealChunks(p, isTTY)
    else WriteChunks(p, isTTY, lines[0]) + Chunks(Written(p, lines[0]), isTTY, lines[1..])
  }

  class CollapseConsoleWriter {
    const isTTY: bool
    var sink: seq<string>
    var pendingKey: Option<string>
    var pendingLine: string
    var count: nat

    ghost function State(): Pending
      reads this
    {
      Pending(pendingKey, pendingLine, count)
    }

    constructor (tty: bool)
      ensures isTTY == tty && sink == [] && State() == IDLE
    {
      isTTY := tty;
      sink, pendingKey, pendingLine, count := [], None, "", 0;
    }

    method Write(chunk: string)
      modifies this`sink
      ensures sink == old(sink) + [chunk]
    {
      sink := sink + [chunk];
    }

    method Seal()
      modifies this
      ensures sink == old(sink) + SealChunks(old(State()), isTTY)
      ensures State() == Sealed(old(State()))
    {
      if pendingKey.None? || pendingKey.value == "" {
        return;
      }
      if isTTY {
        Write("\n");
      } else if count > 1 {
        Write(RenderCount(pendingLine, count, false) + "\n");
      }
      pendingKey, pendingLine, count := None, "", 0;
    }

    method WriteLine(line: string)
      modifies this
      ensures sink == old(sink) + WriteChunks(old(State()), isTTY, line)
      ensures State() == Written(old(State()), line)
    {
      var multiline := '\n' in line;
      if !multiline && pendingKey == Some(ConsoleKeyOf(line)) {
        count := count + 1;
        if isTTY {
          Write(RenderCount(pendingLine, count, true));
        }
        return;
      }
      Seal();
      if multiline {
        Write(line + "\n");
        return;
      }
      Write(if isTTY then line else line + "\n");
      pendingKey, pendingLine, count := Some(ConsoleKeyOf(line)), line, 1;
    }
  }

  // ---- runs, and the rows they are written as ----

  /**
   A run of lines with one key, shown by its first line; a text of several lines; or a repeat of
   a line with the empty key, shown on a terminal only, by that line and its count so far.
   */
  datatype Run = Row(line: string, count: nat) | Block(text: string) | Lost(line: string, count: nat)

  datatype Event = Key(key: string) | Text(text: string)

  /** The runs of lines written while no key, or the empty key, is pending. */
  function Runs(p: Pending, lines: seq<string>): seq<Run>
    decreases |lines|, 0
  {
    if lines == [] then []
    else if IsMultiline(lines[0]) then [Block(lines[0])] + Runs(p, lines[1..])
    else if Repeats(p, lines[0]) then [Lost(p.line, p.count + 1)] + Runs(p.(count := p.count + 1), lines[1..])
    else if ConsoleKeyOf(lines[0]) == "" then [Row(lines[0], 1)] + Runs(Pending(Some(""), lines[0], 1), lines[1..])
    else RunsAfter(lines[0], 1, lines[1..])
  }

  function RunsAfter(line: string, count: nat, lines: seq<string>): (runs: seq<Run>)
    ensures runs != [] && runs[0].Row? && runs[0].line == line && runs[0].count >= count
    decreases |lines|, 1
  {
    if lines != [] && !IsMultiline(lines[0]) && ConsoleKeyOf(lines[0]) == ConsoleKeyOf(line)
    then RunsAfter(line, count + 1, lines[1..])
    else [Row(line, count)] + Runs(IDLE, lines)
  }

  function EventOf(line: string): Event {
    if IsMultiline(line) then Text(line) else Key(ConsoleKeyOf(line))
  }

  /** What was logged: the keys, and the texts of several lines, in order. */
  function Events(lines: seq<string>): seq<Event> {
    if lines == [] then [] else [EventOf(lines[0])] + Events(lines[1..])
  }

  function Copies(event: Event, n: nat): seq<Event> {
    if n == 0 then [] else [event] + Copies(event, n - 1)
  }

  function EventsOf(runs: seq<Run>): seq<Event> {
    if runs == [] then [] else EventsOfRun(runs[0]) + EventsOf(runs[1..])
  }

  function EventsOfRun(run: Run): seq<Event> {
    match run
    case Row(line, count) => Copies(Key(ConsoleKeyOf(line)), count)
    case Block(text) => [Text(text)]
    case Lost(_, _) => [Key("")]
  }

  predicate ProperRun(run: Run) {
    match run
    case Row(line, count) => !IsMultiline(line) && count > 0 && (ConsoleKeyOf(line) == "" ==> count == 1)
    case Block(text) => IsMultiline(text)
    case Lost(line, count) => !IsMultiline(line) && ConsoleKeyOf(line) == "" && count > 1
  }

  predicate Apart(run: Run, next: Run) {
    run.Row? && next.Row? ==> ConsoleKeyOf(run.line) != ConsoleKeyOf(next.line)
  }

  /** Runs are maximal and hold what they should. */
  ghost predicate Proper(runs: seq<Run>) {
    && (forall i :: 0 <= i < |runs| ==> ProperRun(runs[i]))
    && (forall i, j :: 0 <= i && j == i + 1 && j < |runs| ==> Apart(runs[i], runs[j]))
  }

  lemma ProperCons(run: Run, runs: seq<Run>)
    requires ProperRun(run) && Proper(runs) && (runs == [] || Apart(run, runs[0]))
    ensures Proper([run] + runs)
  {
    hide ProperRun, Apart;
    var all := [run] + runs;
    assert forall i :: 1 <= i < |all| ==> all[i] == runs[i - 1];
  }

  /** The counters shown on a terminal from one count on to another. */
  function Counters(line: string, from: nat, to: nat): seq<string>
    decreases to - from
  {
    if from >= to then [] else [RenderCount(line, from + 1, true)] + Counters(line, from + 1, to)
  }

  /** What follows the first line of a row. A row with the empty key is never ended. */
  function RowTail(line: string, from: nat, count: nat, isTTY: bool): seq<string> {
    if isTTY then Counters(line, from, count) + if ConsoleKeyOf(line) == "" then [] else ["\n"]
    else if count > 1 then [line + Suffix(count) + "\n"]
    else []
  }

  /** On a terminal a row ends showing its full count; elsewhere a summary follows it. */
  function Rows(runs: seq<Run>, isTTY: bool): seq<string> {
    if runs == [] then [] else RowOf(runs[0], isTTY) + Rows(runs[1..], isTTY)
  }

  function RowOf(run: Run, isTTY: bool): seq<string> {
    match run
    case Row(line, count) => [if isTTY then line else line + "\n"] + RowTail(line, 1, count, isTTY)
    case Block(text) => [text + "\n"]
    case Lost(line, count) => if isTTY then [RenderCount(line, count, true)] else []
  }

  lemma RowsCons(run: Run, runs: seq<Run>, isTTY: bool)
    ensures Rows([run] + runs, isTTY) == RowOf(run, isTTY) + Rows(runs, isTTY)
  {
    assert ([run] + runs)[1..] == runs;
  }

  /** The writer's output is its runs, each as its row, for every sequence of lines. */
  lemma {:induction false} WritesRuns(p: Pending, lines: seq<string>, isTTY: bool)
    requires !Sealable(p)
    ensures Chunks(p, isTTY, lines) == Rows(Runs(p, lines), isTTY)
    decreases |lines|, 0
  {
    hide ConsoleKeyOf, RenderCount, Suffix, RowTail, Runs, RunsAfter, Rows;
    RunsHead(p, lines);
    if lines == [] {
      NoRows(isTTY);
    } else if IsMultiline(lines[0]) {
      WritesRuns(p, lines[1..], isTTY);
      RowsCons(Block(lines[0]), Runs(p, lines[1..]), isTTY);
    } else if Repeats(p, lines[0]) {
      var q := p.(count := p.count + 1);
      WritesRuns(q, lines[1..], isTTY);
      RowsCons(Lost(p.line, q.count), Runs(q, lines[1..]), isTTY);
    } else if ConsoleKeyOf(lines[0]) == "" {
      var q := Pending(Some(""), lines[0], 1);
      WritesRuns(q, lines[1..], isTTY);
      EmptyRow(lines[0], isTTY);
      RowsCons(Row(lines[0], 1), Runs(q, lines[1..]), isTTY);
    } else {
      WritesRow(lines[0], 1, lines[1..], isTTY);
      var runs := Runs(p, lines);
      assert runs == [runs[0]] + runs[1..];
      RowsCons(runs[0], runs[1..], isTTY);
    }
  }

  lemma EmptyRow(line: string, isTTY: bool)
    requires ConsoleKeyOf(line) == ""
    ensures RowTail(line, 1, 1, isTTY) == []
  {
  }

  lemma {:induction false} WritesRow(line: string, count: nat, lines: seq<string>, isTTY: bool)
    requires !IsMultiline(line) && ConsoleKeyOf(line) != "" && count > 0
    ensures var runs := RunsAfter(line, count, lines);
            Chunks(Pending(Some(ConsoleKeyOf(line)), line, count), isTTY, lines)
            == RowTail(line, count, runs[0].count, isTTY) + Rows(runs[1..], isTTY)
    decreases |lines|, 1
  {
    hide ConsoleKeyOf, RenderCount, Suffix, Rows, Runs;
    var p := Pending(Some(ConsoleKeyOf(line)), line, count);
    if lines != [] && Repeats(p, lines[0]) {
      WritesRow(line, count + 1, lines[1..], isTTY);
    } else {
      WritesRuns(IDLE, lines, isTTY);
      SealsFirst(p, lines, isTTY);
      assert ([Row(line, count)] + Runs(IDLE, lines))[1..] == Runs(IDLE, lines);
      SummaryIs(line, count);
    }
  }

  lemma SummaryIs(line: string, count: nat)
    ensures RenderCount(line, count, false) == line + Suffix(count)
  {
  }

  lemma SealsFirst(p: Pending, lines: seq<string>, isTTY: bool)
    requires Sealable(p) && (lines == [] || !Repeats(p, lines[0]))
    ensures Chunks(p, isTTY, lines) == SealChunks(p, isTTY) + Chunks(IDLE, isTTY, lines)
  {
  }

  lemma {:induction false} RunsAreProper(p: Pending, lines: seq<string>)
    requires !Sealable(p) && (p.key.Some? ==> !IsMultiline(p.line) && ConsoleKeyOf(p.line) == "" && p.count > 0)
    ensures Proper(Runs(p, lines)) && EventsOf(Runs(p, lines)) == Events(lines)
    decreases |lines|, 0
  {
    hide ConsoleKeyOf, EventsOf, Runs;
    RunsHead(p, lines);
    if lines == [] {
      assert EventsOf(Runs(p, lines)) == [] by { NoEvents(); }
    } else if IsMultiline(lines[0]) {
      RunsAreProper(p, lines[1..]);
      EventsOfCons(Block(lines[0]), Runs(p, lines[1..]));
      ProperCons(Block(lines[0]), Runs(p, lines[1..]));
    } else if Repeats(p, lines[0]) {
      var q := p.(count := p.count + 1);
      RunsAreProper(q, lines[1..]);
      EventsOfCons(Lost(p.line, q.count), Runs(q, lines[1..]));
      ProperCons(Lost(p.line, q.count), Runs(q, lines[1..]));
    } else if ConsoleKeyOf(lines[0]) == "" {
      var q := Pending(Some(""), lines[0], 1);
      RunsAreProper(q, lines[1..]);
      EventsOfCons(Row(lines[0], 1), Runs(q, lines[1..]));
      assert Copies(Key(""), 1) == [Key("")] + Copies(Key(""), 0);
      RunsHead(q, lines[1..]);
      ProperCons(Row(lines[0], 1), Runs(q, lines[1..]));
    } else {
      RunsAfterAreProper(lines[0], 1, lines[1..]);
      assert Copies(Key(ConsoleKeyOf(lines[0])), 0) == [];
    }
  }

  lemma {:induction false} RunsAfterAreProper(line: string, count: nat, lines: seq<string>)
    requires !IsMultiline(line) && count > 0 && ConsoleKeyOf(line) != ""
    ensures Proper(RunsAfter(line, count, lines))
    ensures EventsOf(RunsAfter(line, count, lines)) == Copies(Key(ConsoleKeyOf(line)), count) + Events(lines)
    decreases |lines|, 1
  {
    hide ConsoleKeyOf, Proper, EventsOf, Copies, Runs;
    var k := Key(ConsoleKeyOf(line));
    if lines != [] && !IsMultiline(lines[0]) && ConsoleKeyOf(lines[0]) == ConsoleKeyOf(line) {
      RunsAfterAreProper(line, count + 1, lines[1..]);
      OneMoreCopy(k, count);
      assert Copies(k, count) + [k] + Events(lines[1..]) == Copies(k, count) + Events(lines);
    } else {
      RunsAreProper(IDLE, lines);
      RunsHead(IDLE, lines);
      ProperCons(Row(line, count), Runs(IDLE, lines));
      EventsOfCons(Row(line, count), Runs(IDLE, lines));
    }
  }

  lemma RunsHead(p: Pending, lines: seq<string>)
    ensures lines == [] ==> Runs(p, lines) == []
    ensures lines != [] ==>
              Runs(p, lines) ==
              if IsMultiline(lines[0]) then [Block(lines[0])] + Runs(p, lines[1..])
              else if Repeats(p, lines[0]) then [Lost(p.line, p.count + 1)] + Runs(p.(count := p.count + 1), lines[1..])
              else if ConsoleKeyOf(lines[0]) == "" then [Row(lines[0], 1)] + Runs(Pending(Some(""), lines[0], 1), lines[1..])
              else RunsAfter(lines[0], 1, lines[1..])
  {
    hide ConsoleKeyOf;
  }

  lemma NoEvents()
    ensures EventsOf([]) == []
  {
  }

  lemma EventsOfCons(run: Run, runs: seq<Run>)
    ensures EventsOf([run] + runs) == EventsOfRun(run) + EventsOf(runs)
  {
    assert ([run] + runs)[1..] == runs;
  }

  lemma {:induction false} OneMoreCopy(event: Event, n: nat)
    ensures Copies(event, n + 1) == Copies(event, n) + [event]
  {
    if n > 0 {
      OneMoreCopy(event, n - 1);
    }
  }

  // ---- reading plain output back ----

  /** The count, when the text is a line's summary for a count of at least two. */
  function SummaryCount(line: string, body: string): (count: Option<nat>)
    ensures count.Some? ==> count.value >= 2 && body == line + Suffix(count.value)
  {
    if |body| < |line| + 4 then None
    else
      var count := DecimalValue(body[|line| + 3..|body| - 1]);
      if count >= 2 && body == line + Suffix(count) then Some(count) else None
  }

  lemma SummaryIsRead(line: string, count: nat)
    requires count >= 2
    ensures SummaryCount(line, line + Suffix(count)) == Some(count)
  {
    var body := line + Suffix(count);
    assert body[|line| + 3..|body| - 1] == Decimal(count);
    DecimalReads(count);
  }

  /** Reading chunks, knowing the line before when it may still be followed by its summary. */
  function Decode(chunks: seq<string>, before: Option<string>): seq<Event>
    decreases |chunks|
  {
    if chunks == [] then []
    else
      var body := if chunks[0] == "" then "" else chunks[0][..|chunks[0]| - 1];
      var count := if before.Some? then SummaryCount(before.value, body) else None;
      if IsMultiline(body) then [Text(body)] + Decode(chunks[1..], None)
      else if count.Some? then Copies(Key(ConsoleKeyOf(before.value)), count.value - 1) + Decode(chunks[1..], None)
      else [Key(ConsoleKeyOf(body))] + Decode(chunks[1..], Some(body))
  }

  /** A lone line followed by one that looks like its summary. */
  predicate Clash(line: string, next: string) {
    SummaryCount(line, next).Some?
  }

  ghost predicate NoClash(runs: seq<Run>) {
    forall i :: 0 <= i < |runs| - 1 && runs[i].Row? && runs[i].count == 1 && runs[i + 1].Row? ==>
      !Clash(runs[i].line, runs[i + 1].line)
  }

  /** No clash, and none between the lone line before and the first row. */
  ghost predicate NoClashAfter(before: Option<string>, runs: seq<Run>) {
    NoClash(runs) && (before.Some? && runs != [] && runs[0].Row? ==> !Clash(before.value, runs[0].line))
  }

  lemma DecodeRow(chunk: string, rest: seq<string>, line: string, before: Option<string>)
    requires chunk == line + "\n" && !IsMultiline(line)
    requires before.Some? ==> !Clash(before.value, line)
    ensures Decode([chunk] + rest, before) == [Key(ConsoleKeyOf(line))] + Decode(rest, Some(line))
  {
    assert chunk[..|chunk| - 1] == line;
    assert ([chunk] + rest)[1..] == rest;
  }

  lemma DecodeSummary(line: string, count: nat, chunk: string, rest: seq<string>)
    requires count >= 2 && !IsMultiline(line) && chunk == line + Suffix(count) + "\n"
    ensures Decode([chunk] + rest, Some(line)) == Copies(Key(ConsoleKeyOf(line)), count - 1) + Decode(rest, None)
  {
    assert chunk[..|chunk| - 1] == line + Suffix(count);
    SuffixIsPlain(count);
    SummaryIsRead(line, count);
    assert ([chunk] + rest)[1..] == rest;
  }

  lemma SuffixIsPlain(count: nat)
    ensures '\n' !in Suffix(count) && ':' !in Suffix(count)
  {
    DecimalDigits(count);
  }

  lemma DecodeBlock(text: string, rest: seq<string>, before: Option<string>)
    requires IsMultiline(text)
    ensures Decode([text + "\n"] + rest, before) == [Text(text)] + Decode(rest, None)
  {
    var chunk := text + "\n";
    assert chunk[..|chunk| - 1] == text;
    assert ([chunk] + rest)[1..] == rest;
  }

  /** A repeat of the empty key that leaves no trace in piped output. */
  ghost predicate NoLost(runs: seq<Run>) {
    forall i :: 0 <= i < |runs| ==> !runs[i].Lost?
  }

  ghost predicate AllProper(runs: seq<Run>) {
    forall i :: 0 <= i < |runs| ==> ProperRun(runs[i])
  }

  lemma RunsTail(runs: seq<Run>)
    requires runs != []
    ensures NoLost(runs) <==> !runs[0].Lost? && NoLost(runs[1..])
    ensures AllProper(runs) ==> ProperRun(runs[0]) && AllProper(runs[1..])
    ensures EventsOf(runs) == EventsOfRun(runs[0]) + EventsOf(runs[1..])
  {
    hide ProperRun, EventsOfRun;
    assert runs == [runs[0]] + runs[1..];
    assert forall i :: 0 <= i < |runs| - 1 ==> runs[1..][i] == runs[i + 1];
  }

  /** Without clashes and lost repeats the output reads back. */
  lemma {:induction false} DecodeRows(runs: seq<Run>, before: Option<string>)
    requires AllProper(runs) && NoLost(runs) && NoClashAfter(before, runs)
    ensures Decode(Rows(runs, false), before) == EventsOf(runs)
    decreases |runs|
  {
    hide Clash, Decode, ConsoleKeyOf, Suffix, Rows, RowTail, NoClash, NoLost, AllProper;
    if runs == [] {
      DecodeNothing(before);
      NoRows(false);
    } else {
      var run, rest := runs[0], runs[1..];
      RowsStep(runs);
      NoClashSplit(runs);
      RunsTail(runs);
      if run.Block? {
        DecodeBlock(run.text, Rows(rest, false), before);
        DecodeRows(rest, None);
      } else {
        DecodeOneRow(run.line, run.count, Rows(rest, false), before);
        DecodeRows(rest, if run.count == 1 then Some(run.line) else None);
      }
    }
  }

  /** Events that both sides begin with can be moved behind what one side is ahead by. */
  lemma Shift(head: seq<Event>, a: seq<Event>, ahead: seq<Event>, b: seq<Event>) returns (shifted: seq<Event>)
    requires head + a == ahead + (head + b)
    ensures |shifted| == |ahead| && a == shifted + b
  {
    var whole := ahead + head;
    assert head + a == whole + b;
    shifted := whole[|head|..];
    assert (head + a)[|head|..] == a && (whole + b)[|head|..] == shifted + b;
  }

  lemma {:induction false} CopiesAre(event: Event, n: nat)
    ensures |Copies(event, n)| == n && forall i :: 0 <= i < n ==> Copies(event, n)[i] == event
  {
    if n > 0 {
      CopiesAre(event, n - 1);
    }
  }

  /** Copies of one event cannot reach past the first of another. */
  lemma Behind(k0: Event, n: nat, a: seq<Event>, ahead: seq<Event>, k: Event, b: seq<Event>)
    requires k0 != k && Copies(k0, n) + a == ahead + ([k] + b)
    ensures n <= |ahead| && a == ahead[n..] + ([k] + b)
  {
    CopiesAre(k0, n);
    var copies, whole := Copies(k0, n), ahead + ([k] + b);
    assert whole[|ahead|] == k;
    assert forall i :: 0 <= i < n ==> (copies + a)[i] == copies[i] == k0;
    assert (copies + a)[n..] == a && whole[n..] == ahead[n..] + ([k] + b);
  }

  /**
   Whatever the reader is behind by, it never catches up: if its reading is what was logged,
   preceded by `ahead`, then nothing was ahead, no repeat was lost and there was no clash.
   */
  lemma {:induction false} DecodeOnly(runs: seq<Run>, before: Option<string>, ahead: seq<Event>)
    requires AllProper(runs) && Decode(Rows(runs, false), before) == ahead + EventsOf(runs)
    ensures ahead == [] && NoLost(runs) && NoClashAfter(before, runs)
    decreases |runs|, 1
  {
    hide Clash, Decode, ConsoleKeyOf, Suffix, Rows, RowTail, NoClash, NoLost, AllProper, EventsOf, Copies;
    if runs == [] {
      DecodeNothing(before);
      NoRows(false);
      NoEvents();
      assert NoLost([]) by { NothingLost(); }
    } else {
      var run, rest := runs[0], runs[1..];
      RowsStep(runs);
      NoClashSplit(runs);
      RunsTail(runs);
      if run.Lost? {
        assert ahead + ([Key("")] + EventsOf(rest)) == (ahead + [Key("")]) + EventsOf(rest);
        DecodeOnly(rest, before, ahead + [Key("")]);
      } else if run.Block? {
        DecodeBlock(run.text, Rows(rest, false), before);
        var shifted := Shift([Text(run.text)], Decode(Rows(rest, false), None), ahead, EventsOf(rest));
        DecodeOnly(rest, None, shifted);
      } else if before.Some? && Clash(before.value, run.line) {
        ClashNeverReads(run, rest, before.value, ahead);
      } else {
        var after := if run.count == 1 then Some(run.line) else None;
        DecodeOneRow(run.line, run.count, Rows(rest, false), before);
        var shifted := Shift(Copies(Key(ConsoleKeyOf(run.line)), run.count), Decode(Rows(rest, false), after), ahead, EventsOf(rest));
        DecodeOnly(rest, after, shifted);
      }
    }
  }

  lemma NothingLost()
    ensures NoLost([])
  {
  }

  lemma {:induction false} ClashNeverReads(run: Run, rest: seq<Run>, before: string, ahead: seq<Event>)
    requires AllProper(rest) && ProperRun(run) && run.Row? && Clash(before, run.line)
    ensures Decode([run.line + "\n"] + (RowTail(run.line, 1, run.count, false) + Rows(rest, false)), Some(before))
         != ahead + (Copies(Key(ConsoleKeyOf(run.line)), run.count) + EventsOf(rest))
    decreases |rest| + 1, 0
  {
    hide Decode, ConsoleKeyOf, Suffix, Rows, NoClash, NoLost, AllProper, EventsOf, NoClashAfter;
    var k0, k := Key(ConsoleKeyOf(before)), Key(ConsoleKeyOf(run.line));
    var n := SummaryCount(before, run.line).value;
    SummaryKeyDiffers(before, n);
    var chunks := RowTail(run.line, 1, run.count, false) + Rows(rest, false);
    DecodeClash(run.line, chunks, before);
    var more := Copies(k, run.count - 1);
    assert Copies(k, run.count) + EventsOf(rest) == [k] + (more + EventsOf(rest));
    if Copies(k0, n - 1) + Decode(chunks, None) == ahead + ([k] + (more + EventsOf(rest))) {
      Behind(k0, n - 1, Decode(chunks, None), ahead, k, more + EventsOf(rest));
      var left := ahead[n - 1..];
      if run.count == 1 {
        assert chunks == Rows(rest, false) && more == [];
        assert left + ([k] + (more + EventsOf(rest))) == (left + [k]) + EventsOf(rest);
        DecodeOnly(rest, None, left + [k]);
      } else {
        SummaryNeverReads(run, rest, left);
      }
    }
  }

  /** The same after the clash, from the row's own summary on. */
  lemma {:induction false} SummaryNeverReads(run: Run, rest: seq<Run>, left: seq<Event>)
    requires AllProper(rest) && ProperRun(run) && run.Row? && run.count > 1
    ensures var k := Key(ConsoleKeyOf(run.line));
            Decode(RowTail(run.line, 1, run.count, false) + Rows(rest, false), None)
            != left + ([k] + (Copies(k, run.count - 1) + EventsOf(rest)))
    decreases |rest|, 2
  {
    hide Decode, ConsoleKeyOf, Suffix, Rows, NoClash, NoLost, AllProper, EventsOf, NoClashAfter, Copies;
    var k, summary := Key(ConsoleKeyOf(run.line)), run.line + Suffix(run.count);
    var more, ksum := Copies(k, run.count - 1), Key(ConsoleKeyOf(summary));
    SuffixIsPlain(run.count);
    SummaryKeyDiffers(run.line, run.count);
    assert RowTail(run.line, 1, run.count, false) + Rows(rest, false) == [summary + "\n"] + Rows(rest, false);
    DecodeRow(summary + "\n", Rows(rest, false), summary, None);
    var tail := Decode(Rows(rest, false), Some(summary));
    if [ksum] + tail == left + ([k] + (more + EventsOf(rest))) {
      Behead(ksum, tail, left, k, more + EventsOf(rest));
      assert left[1..] + ([k] + (more + EventsOf(rest))) == (left[1..] + ([k] + more)) + EventsOf(rest);
      DecodeOnly(rest, Some(summary), left[1..] + ([k] + more));
    }
  }

  lemma Behead(x: Event, a: seq<Event>, left: seq<Event>, k: Event, b: seq<Event>)
    requires x != k && [x] + a == left + ([k] + b)
    ensures left != [] && a == left[1..] + ([k] + b)
  {
    var all := left + ([k] + b);
    assert all[0] == x && all[|left|] == k;
    assert ([x] + a)[1..] == a;
  }

  lemma DecodeClash(line: string, chunks: seq<string>, before: string)
    requires !IsMultiline(line) && Clash(before, line)
    ensures Decode([line + "\n"] + chunks, Some(before))
         == Copies(Key(ConsoleKeyOf(before)), SummaryCount(before, line).value - 1) + Decode(chunks, None)
  {
    assert (line + "\n")[..|line + "\n"| - 1] == line;
    assert ([line + "\n"] + chunks)[1..] == chunks;
  }

  lemma DecodeOneRow(line: string, count: nat, rest: seq<string>, before: Option<string>)
    requires count > 0 && !IsMultiline(line) && (before.Some? ==> !Clash(before.value, line))
    ensures Decode([line + "\n"] + (RowTail(line, 1, count, false) + rest), before)
         == Copies(Key(ConsoleKeyOf(line)), count) + Decode(rest, if count == 1 then Some(line) else None)
  {
    hide Clash, Decode, ConsoleKeyOf, Suffix;
    var k, chunk := Key(ConsoleKeyOf(line)), line + "\n";
    DecodeRow(chunk, RowTail(line, 1, count, false) + rest, line, before);
    if count == 1 {
      assert RowTail(line, 1, count, false) + rest == rest && Copies(k, 0) == [] && Copies(k, 1) == [k];
    } else {
      DecodeSummary(line, count, line + Suffix(count) + "\n", rest);
      assert Copies(k, count) == [k] + Copies(k, count - 1);
    }
  }

  lemma NoRows(isTTY: bool)
    ensures Rows([], isTTY) == [] && NoClash([])
  {
  }

  lemma RowsStep(runs: seq<Run>)
    requires runs != []
    ensures Rows(runs, false) ==
            match runs[0]
            case Row(line, count) => [line + "\n"] + (RowTail(line, 1, count, false) + Rows(runs[1..], false))
            case Block(text) => [text + "\n"] + Rows(runs[1..], false)
            case Lost(_, _) => Rows(runs[1..], false)
  {
    hide RowTail;
  }

  lemma DecodeNothing(before: Option<string>)
    ensures Decode([], before) == []
  {
  }

  lemma NoClashSplit(runs: seq<Run>)
    requires runs != []
    ensures NoClash(runs) <==>
            NoClashAfter(if runs[0].Row? && runs[0].count == 1 then Some(runs[0].line) else None, runs[1..])
  {
    var rest := runs[1..];
    assert forall i :: 0 <= i < |rest| ==> rest[i] == runs[i + 1];
    if NoClash(rest) {
      forall i | 1 <= i < |runs| - 1 && runs[i].Row? && runs[i].count == 1 && runs[i + 1].Row?
        ensures !Clash(runs[i].line, runs[i + 1].line)
      {
        assert rest[i - 1] == runs[i] && rest[i] == runs[i + 1];
      }
    }
  }

  /** No line with the empty key is written while the empty key is still pending. */
  predicate LosesNone(p: Pending, lines: seq<string>)
    decreases |lines|
  {
    lines == []
    || (!(p.key == Some("") && Repeats(p, lines[0])) && LosesNone(Written(p, lines[0]), lines[1..]))
  }

  lemma {:induction false} LostExactly(p: Pending, lines: seq<string>)
    requires !Sealable(p)
    ensures NoLost(Runs(p, lines)) <==> LosesNone(p, lines)
    decreases |lines|, 0
  {
    hide ConsoleKeyOf, Runs, RunsAfter;
    RunsHead(p, lines);
    if lines != [] {
      var rest := lines[1..];
      if IsMultiline(lines[0]) {
        LostExactly(p, rest);
        RunsTail([Block(lines[0])] + Runs(p, rest));
      } else if Repeats(p, lines[0]) {
        RunsTail([Lost(p.line, p.count + 1)] + Runs(p.(count := p.count + 1), rest));
      } else if ConsoleKeyOf(lines[0]) == "" {
        var q := Pending(Some(""), lines[0], 1);
        LostExactly(q, rest);
        RunsTail([Row(lines[0], 1)] + Runs(q, rest));
      } else {
        LostAfter(lines[0], 1, rest);
      }
    }
  }

  lemma {:induction false} LostAfter(line: string, count: nat, lines: seq<string>)
    requires !IsMultiline(line) && ConsoleKeyOf(line) != ""
    ensures NoLost(RunsAfter(line, count, lines)) <==> LosesNone(Pending(Some(ConsoleKeyOf(line)), line, count), lines)
    decreases |lines|, 1
  {
    hide ConsoleKeyOf, Runs, NoLost;
    var p := Pending(Some(ConsoleKeyOf(line)), line, count);
    if lines != [] && Repeats(p, lines[0]) {
      LostAfter(line, count + 1, lines[1..]);
    } else {
      LostExactly(IDLE, lines);
      RunsTail([Row(line, count)] + Runs(IDLE, lines));
      assert ([Row(line, count)] + Runs(IDLE, lines))[1..] == Runs(IDLE, lines);
      assert lines != [] ==> Written(p, lines[0]) == Written(IDLE, lines[0]);
    }
  }

  /**
   Piped output tells exactly which keys and texts were logged, in order and with their
   multiplicities, if and only if no lone line is followed by a line that looks like its summary
   and no line with the empty key is written while the empty key is still pending.
   */
  lemma LosslessExactly(lines: seq<string>)
    ensures Decode(Chunks(IDLE, false, lines), None) == Events(lines)
       <==> NoClash(Runs(IDLE, lines)) && LosesNone(IDLE, lines)
  {
    hide Decode, Chunks, NoClash, LosesNone, Rows, Runs, Events, EventsOf;
    var runs := Runs(IDLE, lines);
    WritesRuns(IDLE, lines, false);
    RunsAreProper(IDLE, lines);
    LostExactly(IDLE, lines);
    if Decode(Rows(runs, false), None) == EventsOf(runs) {
      assert [] + EventsOf(runs) == EventsOf(runs);
      DecodeOnly(runs, None, []);
    }
    if NoLost(runs) && NoClash(runs) {
      DecodeRows(runs, None);
    }
  }

  // ---- what is lost ----

  lemma Rotation(a: string, line: string, b: string)
    requires a + line == line + b
    ensures forall c :: c in a <==> c in b
  {
    var m := multiset(line);
    assert multiset(a + line) == multiset(a) + m && multiset(line + b) == m + multiset(b);
    forall c: char ensures multiset(a)[c] == multiset(b)[c] {
      assert multiset(a)[c] + m[c] == multiset(a + line)[c] == m[c] + multiset(b)[c];
    }
    assert forall c: char :: c in a <==> c in multiset(a);
    assert forall c: char :: c in b <==> c in multiset(b);
  }

  /** A line never has the key of its own summary. */
  lemma SummaryKeyDiffers(line: string, count: nat)
    ensures ConsoleKeyOf(line + Suffix(count)) != ConsoleKeyOf(line)
  {
    var s := Suffix(count);
    var whole := line + s;
    SuffixIsPlain(count);
    var cut := |whole| - |ConsoleKeyOf(whole)|;
    if ConsoleKeyOf(whole) == ConsoleKeyOf(line) && cut > 0 && ConsoleKeyOf(line) == line {
      var clock := whole[..cut];
      assert clock + line == line + s by { assert whole == clock + whole[cut..]; }
      assert ':' in clock by { assert clock[cut - 7] == ':'; }
      Rotation(clock, line, s);
      assert false;
    }
  }

  function Repeated(line: string, n: nat): seq<string> {
    if n == 0 then [] else [line] + Repeated(line, n - 1)
  }

  lemma {:induction false} ChunksOfRepeats(line: string, count: nat, n: nat)
    requires !IsMultiline(line) && ConsoleKeyOf(line) != ""
    ensures Chunks(Pending(Some(ConsoleKeyOf(line)), line, count), false, Repeated(line, n))
         == SealChunks(Pending(Some(ConsoleKeyOf(line)), line, count + n), false)
    decreases n
  {
    if n > 0 {
      ChunksOfRepeats(line, count + 1, n - 1);
    }
  }

  /** A clash cannot be told from a run by any reader: both give the same chunks. */
  lemma ClashCollides(line: string, n: nat)
    requires n >= 2 && !IsMultiline(line) && ConsoleKeyOf(line) != "" && ConsoleKeyOf(line + Suffix(n)) != ""
    ensures Chunks(IDLE, false, [line, line + Suffix(n)]) == Chunks(IDLE, false, Repeated(line, n))
    ensures Events([line, line + Suffix(n)]) != Events(Repeated(line, n))
  {
    hide ConsoleKeyOf, Suffix, Chunks, Events;
    var summary := line + Suffix(n);
    SuffixIsPlain(n);
    SummaryKeyDiffers(line, n);
    ChunksStep(IDLE, line, [summary]);
    ChunksStep(Written(IDLE, line), summary, []);
    ChunksStep(IDLE, line, Repeated(line, n - 1));
    ChunksOfRepeats(line, 1, n - 1);
    ChunksOfRepeats(summary, 1, 0);
    SummaryIs(line, n);
    assert [line] + [summary] == [line, summary] && [summary] + [] == [summary];
    assert Repeated(line, n) == [line] + ([line] + Repeated(line, n - 2));
    EventsStep(line, [summary]);
    EventsStep(summary, []);
    EventsStep(line, [line] + Repeated(line, n - 2));
    EventsStep(line, Repeated(line, n - 2));
    assert Events([line, summary])[1] == Key(ConsoleKeyOf(summary));
    assert Events(Repeated(line, n))[1] == Key(ConsoleKeyOf(line));
  }

  lemma ChunksStep(p: Pending, line: string, rest: seq<string>)
    ensures Chunks(p, false, [line] + rest) == WriteChunks(p, false, line) + Chunks(Written(p, line), false, rest)
  {
    assert ([line] + rest)[1..] == rest;
  }

  lemma EventsStep(line: string, rest: seq<string>)
    ensures Events([line] + rest) == [EventOf(line)] + Events(rest)
  {
    assert ([line] + rest)[1..] == rest;
  }

  ghost predicate AllBlocks(texts: seq<string>) {
    forall i :: 0 <= i < |texts| ==> IsMultiline(texts[i])
  }

  /** A further line with the empty key leaves no trace in piped output, texts of several lines
      in between or not. */
  lemma {:induction false} EmptyKeyRepeatsVanish(p: Pending, before: seq<string>, a: string, texts: seq<string>, b: string, after: seq<string>)
    requires !IsMultiline(a) && ConsoleKeyOf(a) == "" && !IsMultiline(b) && ConsoleKeyOf(b) == "" && AllBlocks(texts)
    ensures Chunks(p, false, before + [a] + texts + [b] + after) == Chunks(p, false, before + [a] + texts + after)
    ensures |Events(before + [a] + texts + [b] + after)| != |Events(before + [a] + texts + after)|
    decreases |before|
  {
    hide ConsoleKeyOf;
    EventsCount(before + [a] + texts + [b] + after);
    EventsCount(before + [a] + texts + after);
    if before == [] {
      var q := Written(p, a);
      assert q.key == Some("");
      assert ([] + [a] + texts + [b] + after)[1..] == texts + [b] + after && ([] + [a] + texts + after)[1..] == texts + after;
      VanishesAfterTexts(q, texts, b, after);
    } else {
      assert (before + [a] + texts + [b] + after)[1..] == before[1..] + [a] + texts + [b] + after;
      assert (before + [a] + texts + after)[1..] == before[1..] + [a] + texts + after;
      EmptyKeyRepeatsVanish(Written(p, before[0]), before[1..], a, texts, b, after);
    }
  }

  lemma {:induction false} EventsCount(lines: seq<string>)
    ensures |Events(lines)| == |lines|
  {
    if lines != [] {
      EventsCount(lines[1..]);
    }
  }

  lemma {:induction false} VanishesAfterTexts(p: Pending, texts: seq<string>, b: string, after: seq<string>)
    requires p.key == Some("") && AllBlocks(texts) && !IsMultiline(b) && ConsoleKeyOf(b) == ""
    ensures Chunks(p, false, texts + [b] + after) == Chunks(p, false, texts + after)
    decreases |texts|
  {
    hide ConsoleKeyOf;
    if texts == [] {
      assert texts + [b] + after == [b] + after && texts + after == after;
      assert ([b] + after)[1..] == after;
      EmptyCountIgnored(p, p.count + 1, after);
    } else {
      assert (texts + [b] + after)[1..] == texts[1..] + [b] + after && (texts + after)[1..] == texts[1..] + after;
      VanishesAfterTexts(p, texts[1..], b, after);
    }
  }

  lemma {:induction false} EmptyCountIgnored(p: Pending, count: nat, lines: seq<string>)
    requires p.key == Some("")
    ensures Chunks(p, false, lines) == Chunks(p.(count := count), false, lines)
    decreases |lines|
  {
    hide ConsoleKeyOf;
    if lines != [] {
      var q := Written(p, lines[0]);
      if q.key == Some("") && (Repeats(p, lines[0]) || IsMultiline(lines[0])) {
        EmptyCountIgnored(q, Written(p.(count := count), lines[0]).count, lines[1..]);
      }
    }
  }
}
