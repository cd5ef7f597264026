/** src/event-log.c, and the line printer of src/event-recorder.c: the text form of an event
    log, how it is read back, and how long it plays. */
module EventLogs {
  import opened Common
  import opened Decimals

  datatype Event = Event(name: string, time: int, x: int, y: int, detail: int)

  // ---------------------------------------------------------------------------------
  // Reading

  /** White space for GLib: unlike isspace, without the vertical tab. */
  predicate IsBlankChar(c: char) {
    c == ' ' || c == '\t' || c == '\n' || c == '\r' || c as int == 12
  }

  function CutHash(line: string): string {
    if line == "" || line[0] == '#' then "" else [line[0]] + CutHash(line[1..])
  }

  function StripLeft(s: string): string {
    if s != "" && IsBlankChar(s[0]) then StripLeft(s[1..]) else s
  }

  function StripRight(s: string): string {
    if s != "" && IsBlankChar(s[|s| - 1]) then StripRight(s[..|s| - 1]) else s
  }

  function Strip(s: string): string {
    StripLeft(StripRight(s))
  }

  function Split(s: string): (fields: seq<string>)
    ensures fields != []
  {
    if s == "" then [""]
    else if s[0] == ',' then [""] + Split(s[1..])
    else
      var rest := Split(s[1..]);
      [[s[0]] + rest[0]] + rest[1..]
  }

  datatype LineResult = Blank | Malformed | Parsed(event: Event)

  /** One line of a log.  `junk` is what the memory of a new event holds. */
  function ParseLine(line: string, junk: nat): LineResult {
    var text := Strip(CutHash(line));
    var fields := Split(text);
    if text == "" then Blank
    else if |fields| != 5 then Malformed
    else Parsed(Event(fields[0], ScanUnsigned(fields[1], junk), Atoi(fields[2]), Atoi(fields[3]), Atoi(fields[4])))
  }

  function LineLength(text: string): (n: nat)
    ensures n <= |text|
  {
    if text == "" || text[0] == '\n' then 0 else 1 + LineLength(text[1..])
  }

  function AfterLine(text: string): string {
    var n := LineLength(text);
    if n < |text| then text[n + 1..] else ""
  }

  /** The lines of a text; the last one need not end in a newline. */
  function Lines(text: string): seq<string>
    decreases |text|
  {
    if text == "" then [] else [text[..LineLength(text)]] + Lines(AfterLine(text))
  }

  /** What each line of a log parses to. */
  function Results(lines: seq<string>, junk: nat): (rs: seq<LineResult>)
    ensures |rs| == |lines|
    ensures forall i | 0 <= i < |lines| :: rs[i] == ParseLine(lines[i], junk)
  {
    seq(|lines|, i requires 0 <= i < |lines| => ParseLine(lines[i], junk))
  }

  datatype EventRead = EndOfLog | BadLine(rest: seq<LineResult>) | Got(event: Event, rest: seq<LineResult>)

  /** Skips blank lines up to the next event. */
  function NextEvent(results: seq<LineResult>): (r: EventRead)
    ensures !r.EndOfLog? ==> |r.rest| < |results|
  {
    if results == [] then EndOfLog
    else
      match results[0]
      case Blank => NextEvent(results[1..])
      case Malformed => BadLine(results[1..])
      case Parsed(event) => Got(event, results[1..])
  }

  /** All events of a log, or None if it has a malformed line. */
  function Collect(results: seq<LineResult>): Option<seq<Event>>
    decreases |results|
  {
    match NextEvent(results)
    case EndOfLog => Some([])
    case BadLine(_) => None
    case Got(event, rest) =>
      match Collect(rest)
      case None => None
      case Some(events) => Some([event] + events)
  }

  function ParseLog(text: string, junk: nat): Option<seq<Event>> {
    Collect(Results(Lines(text), junk))
  }

  class InputStream {
    var text: string

    constructor (text: string)
      ensures this.text == text
    {
      this.text := text;
    }

    method ReadLine() returns (line: Option<string>)
      modifies this
      ensures line.None? <==> Lines(old(text)) == []
      ensures line.None? ==> text == old(text)
      ensures line.Some? ==> Lines(old(text)) == [line.value] + Lines(text)
    {
      if text == "" {
        return None;
      }
      var n := 0;
      while n < |text| && text[n] != '\n'
        invariant n <= |text| && text == old(text)
        invariant '\n' !in text[..n]
      {
        n := n + 1;
      }
      LinesAt(text, n);
      line := Some(text[..n]);
      text := if n < |text| then text[n + 1..] else "";
    }
  }

  lemma {:induction false} LineLengthAt(text: string, n: nat)
    requires n <= |text| && '\n' !in text[..n] && (n < |text| ==> text[n] == '\n')
    ensures LineLength(text) == n
  {
    if n > 0 {
      assert text[0] == text[..n][0];
      assert text[1..][..n - 1] == text[..n][1..];
      LineLengthAt(text[1..], n - 1);
    }
  }

  lemma LinesAt(text: string, n: nat)
    requires text != "" && n <= |text| && '\n' !in text[..n] && (n < |text| ==> text[n] == '\n')
    ensures Lines(text) == [text[..n]] + Lines(if n < |text| then text[n + 1..] else "")
  {
    LineLengthAt(text, n);
  }

  datatype ReadResult = NoEvent | ReadError | ReadOk(event: Event)

  /** A read from a stream gave r and left rest. */
  predicate IsRead(read: EventRead, r: ReadResult, rest: seq<LineResult>) {
    match r
    case NoEvent => read == EndOfLog && rest == []
    case ReadError => read == BadLine(rest)
    case ReadOk(event) => read == Got(event, rest)
  }

  method GbbEventRead(input: InputStream, junk: nat) returns (r: ReadResult)
    modifies input
    ensures IsRead(NextEvent(Results(Lines(old(input.text)), junk)), r, Results(Lines(input.text), junk))
  {
    r := NoEvent;
    var reading := true;
    while reading
      invariant reading ==> NextEvent(Results(Lines(old(input.text)), junk))
                            == NextEvent(Results(Lines(input.text), junk))
      invariant reading ==> r == NoEvent
      invariant !reading ==> IsRead(NextEvent(Results(Lines(old(input.text)), junk)), r,
                                    Results(Lines(input.text), junk))
      decreases if reading then 1 + |Lines(input.text)| else 0
    {
      ghost var before := Lines(input.text);
      var next := input.ReadLine();
      if next.None? {
        return NoEvent;
      }
      ResultsStep(before, Lines(input.text), next.value, junk);
      var line := next.value;
      line := Strip(CutHash(line));
      if line != "" {
        var fields := Split(line);
        if |fields| != 5 {
          r := ReadError;
        } else {
          r := ReadOk(Event(fields[0], ScanUnsigned(fields[1], junk),
                            Atoi(fields[2]), Atoi(fields[3]), Atoi(fields[4])));
        }
        reading := false;
      }
    }
  }

  lemma ResultsStep(before: seq<string>, after: seq<string>, line: string, junk: nat)
    requires before == [line] + after
    ensures Results(before, junk) != [] && Results(before, junk)[0] == ParseLine(line, junk)
    ensures Results(before, junk)[1..] == Results(after, junk)
  {
  }

  function MaxTime(events: seq<Event>): (latest: int)
    ensures latest >= 0
  {
    if events == [] then 0 else MaxInt(events[0].time, MaxTime(events[1..]))
  }

  /** The times of parsed events are 32-bit unsigned numbers. */
  predicate TimesFit(results: seq<LineResult>) {
    forall i | 0 <= i < |results| && results[i].Parsed? :: 0 <= results[i].event.time < TWO_32
  }

  lemma ParsedTimesFit(lines: seq<string>, junk: nat)
    requires junk < TWO_32
    ensures TimesFit(Results(lines, junk))
  {
  }

  lemma {:induction false} NextTimeFits(results: seq<LineResult>)
    requires TimesFit(results)
    ensures NextEvent(results).Got? ==>
              0 <= NextEvent(results).event.time < TWO_32 && TimesFit(NextEvent(results).rest)
  {
    if results != [] && results[0].Blank? {
      NextTimeFits(results[1..]);
    }
  }

  /** The latest time of what is left of a log and of what came before, if no line is malformed. */
  function LatestTime(results: seq<LineResult>, before: int): Option<int> {
    match Collect(results)
    case None => None
    case Some(events) => Some(MaxInt(before, MaxTime(events)))
  }

  lemma LatestTimeStep(left: seq<LineResult>, r: ReadResult, rest: seq<LineResult>, before: int)
    requires TimesFit(left) && IsRead(NextEvent(left), r, rest) && before >= 0
    ensures match r
            case NoEvent => LatestTime(left, before) == Some(before)
            case ReadError => LatestTime(left, before).None?
            case ReadOk(e) =>
              && 0 <= e.time < TWO_32 && TimesFit(rest) && |rest| < |left|
              && LatestTime(left, before) == LatestTime(rest, MaxInt(before, e.time))
  {
    NextTimeFits(left);
  }

  /** A comparison of a signed running maximum with an unsigned time is an unsigned one. */
  function UnsignedMax(duration: int, time: int): int {
    ToInt32(if ToUint32(duration) > time then ToUint32(duration) else time)
  }

  lemma UnsignedMaxTracks(largest: int, time: int)
    requires 0 <= largest < TWO_32
    ensures UnsignedMax(ToInt32(largest), time) == ToInt32(MaxInt(largest, time))
  {
  }

  /** The running maximum is kept in a signed variable but compared as an unsigned one. */
  method GbbEventLogDuration(log: string, junk: nat) returns (duration: int)
    requires junk < TWO_32
    ensures duration == match ParseLog(log, junk)
                        case None => -1
                        case Some(events) => ToInt32(MaxTime(events))
  {
    var input := new InputStream(log);
    duration := 0;
    ghost var largest := 0;
    ghost var all := Results(Lines(log), junk);
    ghost var left := all;
    ParsedTimesFit(Lines(log), junk);
    while true
      invariant left == Results(Lines(input.text), junk) && TimesFit(left)
      invariant 0 <= largest < TWO_32 && duration == ToInt32(largest)
      invariant LatestTime(all, 0) == LatestTime(left, largest)
      decreases |left|
    {
      var r := GbbEventRead(input, junk);
      LatestTimeStep(left, r, Results(Lines(input.text), junk), largest);
      match r {
        case NoEvent => return;
        case ReadError => return -1;
        case ReadOk(event) =>
          UnsignedMaxTracks(largest, event.time);
          duration := UnsignedMax(duration, event.time);
          largest := MaxInt(largest, event.time);
      }
      left := Results(Lines(input.text), junk);
    }
  }

  /** The duration is the latest time exactly if all times are below 2^31; otherwise it is 2^32
      too small. */
  lemma {:induction false} DurationIsLatestTimeIff(events: seq<Event>)
    requires forall i | 0 <= i < |events| :: 0 <= events[i].time < TWO_32
    ensures ToInt32(MaxTime(events)) == MaxTime(events) <==> forall i | 0 <= i < |events| :: events[i].time < TWO_31
    ensures ToInt32(MaxTime(events)) != MaxTime(events) ==> ToInt32(MaxTime(events)) == MaxTime(events) - TWO_32
    ensures forall i | 0 <= i < |events| :: events[i].time <= MaxTime(events)
    ensures MaxTime(events) > 0 ==> exists i | 0 <= i < |events| :: events[i].time == MaxTime(events)
  {
    MaxTimeBelow(events, TWO_32);
    MaxTimeAttained(events);
    if forall i | 0 <= i < |events| :: events[i].time < TWO_31 {
      MaxTimeBelow(events, TWO_31);
    }
  }

  lemma {:induction false} MaxTimeAttained(events: seq<Event>)
    ensures MaxTime(events) > 0 ==> exists i | 0 <= i < |events| :: events[i].time == MaxTime(events)
  {
    if events != [] && MaxTime(events) > 0 {
      var rest := events[1..];
      MaxTimeAttained(rest);
      if MaxTime(events) == events[0].time {
      } else {
        var i :| 0 <= i < |rest| && rest[i].time == MaxTime(rest);
        assert events[i + 1].time == MaxTime(events);
      }
    }
  }

  lemma {:induction false} MaxTimeBelow(events: seq<Event>, bound: int)
    requires bound > 0 && forall i | 0 <= i < |events| :: events[i].time < bound
    ensures MaxTime(events) < bound
    ensures forall i | 0 <= i < |events| :: events[i].time <= MaxTime(events)
  {
    if events != [] {
      MaxTimeBelow(events[1..], bound);
    }
  }

  // ---------------------------------------------------------------------------------
  // Uninitialised times

  /** If the line holds an event, its time field has digits. */
  predicate HasTime(line: string) {
    var text := Strip(CutHash(line));
    text != "" && |Split(text)| == 5 ==> ScanDigits(Split(text)[1]) != ""
  }

  predicate SameKind(r: LineResult, q: LineResult) {
    (r.Blank? <==> q.Blank?) && (r.Malformed? <==> q.Malformed?)
  }

  lemma LineJunk(line: string, junk: nat, other: nat)
    ensures SameKind(ParseLine(line, junk), ParseLine(line, other))
    ensures ParseLine(line, junk) == ParseLine(line, other) <==> HasTime(line) || junk == other
  {
  }

  lemma ConsEqual<T>(x: T, xs: seq<T>, y: T, ys: seq<T>)
    ensures [x] + xs == [y] + ys <==> x == y && xs == ys
  {
    if [x] + xs == [y] + ys {
      assert ([x] + xs)[0] == x && ([y] + ys)[0] == y;
      assert ([x] + xs)[1..] == xs && ([y] + ys)[1..] == ys;
    }
  }

  lemma {:induction false} CollectTellsApart(rs: seq<LineResult>, qs: seq<LineResult>)
    requires |rs| == |qs| && forall i | 0 <= i < |rs| :: SameKind(rs[i], qs[i])
    ensures Collect(rs).None? <==> Collect(qs).None?
    ensures Collect(rs).Some? ==> (Collect(rs) == Collect(qs) <==> rs == qs)
  {
    if rs != [] {
      CollectTellsApart(rs[1..], qs[1..]);
      assert SameKind(rs[0], qs[0]);
      assert rs == [rs[0]] + rs[1..] && qs == [qs[0]] + qs[1..];
      ConsEqual(rs[0], rs[1..], qs[0], qs[1..]);
      if rs[0].Parsed? && Collect(rs[1..]).Some? {
        ConsEqual(rs[0].event, Collect(rs[1..]).value, qs[0].event, Collect(qs[1..]).value);
      }
    }
  }

  predicate AllHaveTimes(lines: seq<string>) {
    forall i | 0 <= i < |lines| :: HasTime(lines[i])
  }

  lemma ResultsJunk(lines: seq<string>, junk: nat, other: nat)
    requires junk != other
    ensures forall i | 0 <= i < |lines| :: SameKind(Results(lines, junk)[i], Results(lines, other)[i])
    ensures Results(lines, junk) == Results(lines, other) <==> AllHaveTimes(lines)
  {
    var rs, qs := Results(lines, junk), Results(lines, other);
    forall i | 0 <= i < |lines|
      ensures SameKind(rs[i], qs[i]) && (rs[i] == qs[i] <==> HasTime(lines[i]))
    {
      LineJunk(lines[i], junk, other);
    }
  }

  lemma ParseLogJunk(text: string, junk: nat, other: nat)
    requires junk != other
    ensures ParseLog(text, junk).None? <==> ParseLog(text, other).None?
    ensures ParseLog(text, junk) == ParseLog(text, other)
            <==> ParseLog(text, junk).None? || AllHaveTimes(Lines(text))
  {
    ResultsJunk(Lines(text), junk, other);
    CollectTellsApart(Results(Lines(text), junk), Results(Lines(text), other));
  }

  /** What a log parses to does not depend on uninitialised memory exactly if it is malformed or
      every event has digits in its time field. */
  lemma ParseIsDefiniteIff(text: string)
    ensures (forall junk: nat, other: nat :: ParseLog(text, junk) == ParseLog(text, other))
            <==> ParseLog(text, 0).None? || AllHaveTimes(Lines(text))
  {
    ParseLogJunk(text, 0, 1);
    if ParseLog(text, 0) == ParseLog(text, 1) {
      forall junk: nat, other: nat
        ensures ParseLog(text, junk) == ParseLog(text, other)
      {
        if junk != 0 {
          ParseLogJunk(text, 0, junk);
        }
        if other != 0 {
          ParseLogJunk(text, 0, other);
        }
      }
    }
  }

  // ---------------------------------------------------------------------------------
  // Printing

  /** The names of key codes, for the comments. */
  type KeyNames = int -> Option<string>

  function CommentOf(names: KeyNames, e: Event): Option<string> {
    if e.name == "KeyPress" || e.name == "KeyRelease" then names(e.detail) else None
  }

  /** The fields, separated by commas. */
  function Join(fields: seq<string>): string
    requires fields != []
  {
    if |fields| == 1 then fields[0] else fields[0] + "," + Join(fields[1..])
  }

  function Fields(e: Event): seq<string> {
    [e.name, Decimal(e.time), Decimal(e.x), Decimal(e.y), Decimal(e.detail)]
  }

  function WithComment(body: string, comment: Option<string>): string {
    match comment
    case None => body
    case Some(c) => body + " # " + c
  }

  /** The line that dump_event prints, without its newline. */
  function PrintedLine(names: KeyNames, e: Event): string {
    WithComment(Join(Fields(e)), CommentOf(names, e))
  }

  function PrintedLines(names: KeyNames, events: seq<Event>): (lines: seq<string>)
    ensures |lines| == |events|
    ensures forall i | 0 <= i < |events| :: lines[i] == PrintedLine(names, events[i])
  {
    seq(|events|, i requires 0 <= i < |events| => PrintedLine(names, events[i]))
  }

  function Unlines(lines: seq<string>): string {
    if lines == [] then "" else lines[0] + "\n" + Unlines(lines[1..])
  }

  function PrintLog(names: KeyNames, events: seq<Event>): string {
    Unlines(PrintedLines(names, events))
  }

  lemma {:induction false} UnlinesAppend(lines: seq<string>, line: string)
    ensures Unlines(lines + [line]) == Unlines(lines) + (line + "\n")
  {
    if lines == [] {
      assert Unlines([line][1..]) == "";
    } else {
      UnlinesAppend(lines[1..], line);
      assert (lines + [line])[1..] == lines[1..] + [line];
    }
  }

  /** A log grows by one line for each event. */
  lemma PrintLogAppend(names: KeyNames, events: seq<Event>, e: Event)
    ensures PrintLog(names, events + [e]) == PrintLog(names, events) + (PrintedLine(names, e) + "\n")
  {
    assert PrintedLines(names, events + [e]) == PrintedLines(names, events) + [PrintedLine(names, e)];
    UnlinesAppend(PrintedLines(names, events), PrintedLine(names, e));
  }

  predicate PlainName(name: string) {
    && ',' !in name && '#' !in name && '\n' !in name
    && (name != "" ==> !IsBlankChar(name[0]))
  }

  /** An event that the log format can carry. */
  predicate Printable(e: Event) {
    && PlainName(e.name)
    && 0 <= e.time < TWO_32
    && -TWO_31 <= e.x < TWO_31 && -TWO_31 <= e.y < TWO_31 && -TWO_31 <= e.detail < TWO_31
  }

  ghost predicate OneLineNames(names: KeyNames) {
    forall k | names(k).Some? :: '\n' !in names(k).value
  }

  // ---------------------------------------------------------------------------------
  // The parser undoes the printer

  lemma {:induction false} SplitField(field: string, rest: string)
    requires ',' !in field
    ensures Split(field) == [field]
    ensures Split(field + "," + rest) == [field] + Split(rest)
  {
    var s := field + "," + rest;
    if field == "" {
      assert s[1..] == rest;
    } else {
      SplitField(field[1..], rest);
      assert s[1..] == field[1..] + "," + rest;
      assert field == [field[0]] + field[1..];
    }
  }

  lemma {:induction false} SplitJoin(fields: seq<string>)
    requires fields != [] && forall i | 0 <= i < |fields| :: ',' !in fields[i]
    ensures Split(Join(fields)) == fields
  {
    if |fields| == 1 {
      SplitField(fields[0], "");
    } else {
      SplitJoin(fields[1..]);
      SplitField(fields[0], Join(fields[1..]));
    }
  }

  lemma {:induction false} JoinAvoids(fields: seq<string>, c: char)
    requires fields != [] && c != ',' && forall i | 0 <= i < |fields| :: c !in fields[i]
    ensures c !in Join(fields)
  {
    if |fields| > 1 {
      JoinAvoids(fields[1..], c);
    }
  }

  lemma {:induction false} JoinEnds(fields: seq<string>)
    requires |fields| > 1 && fields[|fields| - 1] != ""
    ensures Join(fields) != ""
    ensures Join(fields)[0] == if fields[0] == "" then ',' else fields[0][0]
    ensures var j, f := Join(fields), fields[|fields| - 1]; j[|j| - 1] == f[|f| - 1]
  {
    if |fields| > 2 {
      JoinEnds(fields[1..]);
    }
  }

  lemma DecimalAvoids(i: int, c: char)
    requires !IsDigit(c) && c != '-'
    ensures c !in Decimal(i)
  {
    DecimalCharacters(i);
  }

  lemma FieldsAvoid(e: Event, c: char)
    requires Printable(e) && c in {',', '#', '\n'}
    ensures forall i | 0 <= i < 5 :: c !in Fields(e)[i]
  {
    DecimalAvoids(e.time, c);
    DecimalAvoids(e.x, c);
    DecimalAvoids(e.y, c);
    DecimalAvoids(e.detail, c);
  }

  lemma {:induction false} CutHashPrefix(a: string, b: string)
    requires '#' !in a
    ensures CutHash(a) == a
    ensures CutHash(a + "#" + b) == a
  {
    var s := a + "#" + b;
    if a != "" {
      CutHashPrefix(a[1..], b);
      assert s[1..] == a[1..] + "#" + b;
      assert a == [a[0]] + a[1..];
    }
  }

  lemma StripBlankEnd(s: string)
    requires s != "" && !IsBlankChar(s[0]) && !IsBlankChar(s[|s| - 1])
    ensures Strip(s) == s && Strip(s + " ") == s
  {
    assert (s + " ")[..|s|] == s;
  }

  lemma CommentIsCut(body: string, comment: Option<string>)
    requires '#' !in body && body != "" && !IsBlankChar(body[0]) && !IsBlankChar(body[|body| - 1])
    ensures Strip(CutHash(WithComment(body, comment))) == body
  {
    StripBlankEnd(body);
    if comment.None? {
      CutHashPrefix(body, "");
    } else {
      var blank := body + " ";
      CutHashPrefix(blank, " " + comment.value);
      assert body + " # " + comment.value == blank + "#" + (" " + comment.value);
    }
  }

  lemma BodyIsRead(e: Event, comment: Option<string>)
    requires Printable(e)
    ensures Strip(CutHash(WithComment(Join(Fields(e)), comment))) == Join(Fields(e)) != ""
  {
    FieldsAvoid(e, '#');
    JoinAvoids(Fields(e), '#');
    DecimalCharacters(e.detail);
    JoinEnds(Fields(e));
    CommentIsCut(Join(Fields(e)), comment);
  }

  /** One printed line parses to the event it was printed from. */
  lemma ParsePrintedLine(e: Event, comment: Option<string>, junk: nat)
    requires Printable(e)
    ensures ParseLine(WithComment(Join(Fields(e)), comment), junk) == Parsed(e)
  {
    BodyIsRead(e, comment);
    FieldsAvoid(e, ',');
    SplitJoin(Fields(e));
    ScanUnsignedDigits(e.time, junk);
    AtoiDecimal(e.x);
    AtoiDecimal(e.y);
    AtoiDecimal(e.detail);
  }

  lemma {:induction false} FirstLineLength(line: string, rest: string)
    requires '\n' !in line
    ensures LineLength(line + "\n" + rest) == |line|
  {
    var s := line + "\n" + rest;
    if line != "" {
      FirstLineLength(line[1..], rest);
      assert s[1..] == line[1..] + "\n" + rest;
    }
  }

  lemma FirstLine(line: string, rest: string)
    requires '\n' !in line
    ensures Lines(line + "\n" + rest) == [line] + Lines(rest)
  {
    FirstLineLength(line, rest);
    var s := line + "\n" + rest;
    assert s[..|line|] == line && s[|line| + 1..] == rest;
  }

  lemma PrintedLineIsOneLine(names: KeyNames, e: Event)
    requires OneLineNames(names) && Printable(e)
    ensures '\n' !in PrintedLine(names, e)
  {
    FieldsAvoid(e, '\n');
    JoinAvoids(Fields(e), '\n');
  }

  lemma {:induction false} LinesUnlines(lines: seq<string>)
    requires forall i | 0 <= i < |lines| :: '\n' !in lines[i]
    ensures Lines(Unlines(lines)) == lines
  {
    if lines != [] {
      LinesUnlines(lines[1..]);
      FirstLine(lines[0], Unlines(lines[1..]));
    }
  }

  lemma {:induction false} CollectParsed(results: seq<LineResult>, events: seq<Event>)
    requires |results| == |events|
    requires forall i | 0 <= i < |results| :: results[i] == Parsed(events[i])
    ensures Collect(results) == Some(events)
  {
    if results != [] {
      CollectParsed(results[1..], events[1..]);
      assert events == [events[0]] + events[1..];
    }
  }

  /** Parsing a printed log gives back its events. */
  lemma ParsePrintedLog(names: KeyNames, events: seq<Event>, junk: nat)
    requires OneLineNames(names) && forall i | 0 <= i < |events| :: Printable(events[i])
    ensures ParseLog(PrintLog(names, events), junk) == Some(events)
  {
    var lines := PrintedLines(names, events);
    forall i | 0 <= i < |lines|
      ensures '\n' !in lines[i] && ParseLine(lines[i], junk) == Parsed(events[i])
    {
      PrintedLineIsOneLine(names, events[i]);
      ParsePrintedLine(events[i], CommentOf(names, events[i]), junk);
    }
    LinesUnlines(lines);
    CollectParsed(Results(lines, junk), events);
  }

  /** A prefix of a text that ends at the end of a line. */
  predicate WholeLines(text: string) {
    text == "" || text[|text| - 1] == '\n'
  }

  lemma {:induction false} FirstLineOfJoin(a: string, b: string)
    requires a != "" && WholeLines(a)
    ensures LineLength(a + b) == LineLength(a) < |a|
  {
    if a[0] != '\n' {
      FirstLineOfJoin(a[1..], b);
      assert (a + b)[1..] == a[1..] + b;
    }
  }

  lemma FirstOfJoin(a: string, b: string)
    requires a != "" && WholeLines(a)
    ensures (a + b)[..LineLength(a + b)] == a[..LineLength(a)]
    ensures AfterLine(a + b) == AfterLine(a) + b
    ensures WholeLines(AfterLine(a)) && |AfterLine(a)| < |a|
  {
    FirstLineOfJoin(a, b);
  }

  lemma UnfoldLines(text: string)
    requires text != ""
    ensures Lines(text) == [text[..LineLength(text)]] + Lines(AfterLine(text))
  {
  }

  lemma PrependLine(line: string, front: seq<string>, back: seq<string>)
    ensures [line] + front + back == [line] + (front + back)
  {
  }

  lemma {:induction false} LinesJoin(a: string, b: string)
    requires WholeLines(a)
    ensures Lines(a + b) == Lines(a) + Lines(b)
    decreases |a|
  {
    if a == "" {
      assert a + b == b;
    } else {
      FirstOfJoin(a, b);
      UnfoldLines(a);
      UnfoldLines(a + b);
      LinesJoin(AfterLine(a), b);
      PrependLine(a[..LineLength(a)], Lines(AfterLine(a)), Lines(b));
    }
  }

  lemma {:induction false} BlankResult(before: seq<LineResult>, after: seq<LineResult>)
    ensures Collect(before + [Blank] + after) == Collect(before + after)
    decreases |before|
  {
    var longer, shorter := before + [Blank] + after, before + after;
    if before == [] {
      assert longer[1..] == after && shorter == after;
    } else {
      assert longer[1..] == before[1..] + [Blank] + after && shorter[1..] == before[1..] + after;
      BlankResult(before[1..], after);
    }
  }

  lemma ResultsJoin(a: seq<string>, b: seq<string>, junk: nat)
    ensures Results(a + b, junk) == Results(a, junk) + Results(b, junk)
  {
  }

  lemma ResultOfBlank(line: string, junk: nat)
    requires Strip(CutHash(line)) == ""
    ensures Results([line], junk) == [Blank]
  {
  }

  lemma InsertedResult(before: seq<string>, line: string, after: seq<string>, junk: nat)
    requires Strip(CutHash(line)) == ""
    ensures Collect(Results(before + ([line] + after), junk)) == Collect(Results(before + after, junk))
  {
    ResultOfBlank(line, junk);
    ResultsJoin([line], after, junk);
    ResultsJoin(before, [line] + after, junk);
    ResultsJoin(before, after, junk);
    RegroupBlank(Results(before, junk), Results(after, junk));
  }

  lemma RegroupBlank(before: seq<LineResult>, after: seq<LineResult>)
    ensures Collect(before + ([Blank] + after)) == Collect(before + after)
  {
    assert before + ([Blank] + after) == before + [Blank] + after;
    BlankResult(before, after);
  }

  /** A blank or comment-only line can be inserted anywhere without changing the log. */
  lemma BlankLineIgnored(before: string, line: string, after: string, junk: nat)
    requires WholeLines(before) && '\n' !in line && Strip(CutHash(line)) == ""
    ensures ParseLog(before + (line + "\n" + after), junk) == ParseLog(before + after, junk)
  {
    LinesJoin(before, line + "\n" + after);
    FirstLine(line, after);
    LinesJoin(before, after);
    InsertedResult(Lines(before), line, Lines(after), junk);
  }
}
