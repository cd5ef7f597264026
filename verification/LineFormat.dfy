/** The text of a log by itself: how numbers are read, which lines hold an event, and how a printed
    line is laid out. */
module LineFormats {
  import opened Common
  import opened Decimals
  import opened EventLogs

  // ---------------------------------------------------------------------------------
  // Numbers

  /** Blanks, tabs, and the four other control characters that count as white space. */
  predicate Spaces(s: string) {
    forall i | 0 <= i < |s| :: s[i] == ' ' || 9 <= s[i] as int <= 13
  }

  predicate StartsWithDigit(s: string) {
    s != "" && '0' <= s[0] <= '9'
  }

  lemma {:induction false} SpacesSkipped(spaces: string, s: string)
    requires Spaces(spaces) && (s == "" || !IsSpace(s[0]))
    ensures SkipSpaces(spaces + s) == s
  {
    if spaces == "" {
      assert spaces + s == s;
    } else {
      SpacesSkipped(spaces[1..], s);
      assert (spaces + s)[1..] == spaces[1..] + s;
    }
  }

  lemma {:induction false} DigitsTaken(digits: string, rest: string)
    requires AllDigits(digits) && !StartsWithDigit(rest)
    ensures LeadingDigits(digits + rest) == digits
  {
    if digits == "" {
      assert digits + rest == rest;
    } else {
      DigitsTaken(digits[1..], rest);
      assert (digits + rest)[1..] == digits[1..] + rest;
      assert digits == [digits[0]] + digits[1..];
    }
  }

  predicate IsSign(sign: string) {
    sign == "" || sign == "+" || sign == "-"
  }

  lemma ScanParts(spaces: string, sign: string, digits: string, rest: string)
    requires Spaces(spaces) && IsSign(sign) && AllDigits(digits) && digits != "" && !StartsWithDigit(rest)
    ensures var s := spaces + (sign + (digits + rest));
            ScanDigits(s) == digits && (ScanSign(s) <==> sign == "-")
  {
    var number := sign + (digits + rest);
    DigitsTaken(digits, rest);
    assert IsDigit(digits[0]);
    if sign == "" {
      assert number == digits + rest;
    } else {
      assert number[0] == sign[0] && number[1..] == digits + rest;
    }
    SpacesSkipped(spaces, number);
  }

  /** The value of a number with its sign. */
  function Signed(sign: string, digits: string): int
    requires AllDigits(digits)
  {
    var v: int := DigitsValue(digits);
    if sign == "-" then -v else v
  }

  /** A field that starts with a number, after white space and with a sign or without, is read as
      that number, whatever follows it; the number saturates at 64 bits and is cut to 32. */
  lemma NumberIsRead(spaces: string, sign: string, digits: string, rest: string, junk: nat)
    requires Spaces(spaces) && IsSign(sign) && AllDigits(digits) && digits != "" && !StartsWithDigit(rest)
    ensures var s, v := spaces + (sign + (digits + rest)), Signed(sign, digits);
            && Atoi(s) == ToInt32(if v < -TWO_63 then -TWO_63 else if v >= TWO_63 then TWO_63 - 1 else v)
            && ScanUnsigned(s, junk) == ToUint32(if DigitsValue(digits) >= TWO_64 then TWO_64 - 1 else v)
  {
    ScanParts(spaces, sign, digits, rest);
    if DigitsValue(digits) < TWO_64 {
      NegatedUnsigned(DigitsValue(digits));
    }
  }

  lemma NegatedUnsigned(v: int)
    requires 0 <= v < TWO_64
    ensures ToUint32((TWO_64 - v) % TWO_64) == ToUint32(-v)
  {
  }

  /** A field without a number is 0, or what the memory held for the time. */
  lemma NoNumberIsRead(spaces: string, sign: string, rest: string, junk: nat)
    requires Spaces(spaces) && IsSign(sign) && !StartsWithDigit(rest)
    requires sign == "" ==> rest == "" || (!IsSpace(rest[0]) && rest[0] != '+' && rest[0] != '-')
    ensures Atoi(spaces + (sign + rest)) == 0 && ScanUnsigned(spaces + (sign + rest), junk) == junk
  {
    var number := sign + rest;
    DigitsTaken("", rest);
    assert "" + rest == rest;
    if sign == "" {
      assert number == rest;
    } else {
      assert number[0] == sign[0] && number[1..] == rest;
    }
    SpacesSkipped(spaces, number);
  }

  // ---------------------------------------------------------------------------------
  // Lines

  predicate Blanks(s: string) {
    forall i | 0 <= i < |s| :: s[i] == ' ' || s[i] == '\t' || s[i] == '\n' || s[i] == '\r' || s[i] as int == 12
  }

  predicate Comment(s: string) {
    s == "" || s[0] == '#'
  }

  /** Text without a comment or blanks around it. */
  predicate Trimmed(s: string) {
    '#' !in s && (s != "" ==> !Blanks([s[0]]) && !Blanks([s[|s| - 1]]))
  }

  /** Any line is blanks, trimmed text, blanks, and a comment. */
  ghost predicate IsLine(line: string, left: string, text: string, right: string, comment: string) {
    line == left + text + right + comment && Blanks(left) && Trimmed(text) && Blanks(right) && Comment(comment)
  }

  lemma {:induction false} CutHashAt(s: string, comment: string)
    requires '#' !in s && Comment(comment)
    ensures CutHash(s + comment) == s
  {
    if s == "" {
      assert s + comment == comment;
    } else {
      CutHashAt(s[1..], comment);
      assert (s + comment)[1..] == s[1..] + comment;
      assert s == [s[0]] + s[1..];
    }
  }

  lemma {:induction false} StripLeftBlanks(left: string, text: string)
    requires Blanks(left) && (text == "" || !IsBlankChar(text[0]))
    ensures StripLeft(left + text) == text
  {
    if left == "" {
      assert left + text == text;
    } else {
      StripLeftBlanks(left[1..], text);
      assert (left + text)[1..] == left[1..] + text;
    }
  }

  lemma {:induction false} StripRightBlanks(text: string, right: string)
    requires Blanks(right)
    ensures StripRight(text + right) == StripRight(text)
  {
    if right == "" {
      assert text + right == text;
    } else {
      var n := |right| - 1;
      StripRightBlanks(text, right[..n]);
      assert (text + right)[..|text| + n] == text + right[..n];
    }
  }

  lemma StripAround(left: string, text: string, right: string)
    requires Blanks(left) && Trimmed(text) && Blanks(right)
    ensures Strip(left + text + right) == text
  {
    StripRightBlanks(left + text, right);
    if text == "" {
      StripRightBlanks("", left);
      assert left + text == "" + left;
    } else {
      assert !IsBlankChar(text[|text| - 1]) && (left + text)[|left + text| - 1] == text[|text| - 1];
      StripLeftBlanks(left, text);
    }
  }

  lemma BlanksHaveNoHash(s: string)
    requires Blanks(s)
    ensures '#' !in s
  {
  }

  /** Only the trimmed text of a line matters. */
  lemma LineIsItsText(line: string, left: string, text: string, right: string, comment: string, junk: nat)
    requires IsLine(line, left, text, right, comment)
    ensures Strip(CutHash(line)) == text && ParseLine(line, junk) == ParseLine(text, junk)
  {
    BlanksHaveNoHash(left);
    BlanksHaveNoHash(right);
    CutHashAt(left + text + right, comment);
    StripAround(left, text, right);
    CutHashAt(text, "");
    assert text + "" == text;
    StripAround("", text, "");
    assert "" + text + "" == text;
  }

  function Commas(s: string): nat {
    if s == "" then 0 else (if s[0] == ',' then 1 else 0) + Commas(s[1..])
  }

  /** The fields are what lies between the commas. */
  lemma {:induction false} SplitAtCommas(s: string)
    ensures |Split(s)| == Commas(s) + 1
    ensures forall i | 0 <= i < |Split(s)| :: ',' !in Split(s)[i]
    ensures Join(Split(s)) == s
  {
    if s != "" {
      SplitAtCommas(s[1..]);
      var rest := Split(s[1..]);
      assert s == [s[0]] + s[1..];
      if s[0] == ',' {
        assert Split(s)[1..] == rest;
      } else {
        JoinPrefix(s[0], rest);
      }
    }
  }

  lemma {:induction false} JoinPrefix(c: char, fields: seq<string>)
    requires fields != []
    ensures Join([[c] + fields[0]] + fields[1..]) == [c] + Join(fields)
  {
    var longer := [[c] + fields[0]] + fields[1..];
    if |fields| > 1 {
      assert longer[1..] == fields[1..];
    }
  }

  /** A line is blank if there is nothing but blanks and a comment; it is malformed if there is
      something with other than four commas; else it holds the event of its five fields. */
  lemma LineMeaning(line: string, left: string, text: string, right: string, comment: string, junk: nat)
    requires IsLine(line, left, text, right, comment)
    ensures ParseLine(line, junk).Blank? <==> text == ""
    ensures ParseLine(line, junk).Malformed? <==> text != "" && Commas(text) != 4
  {
    LineIsItsText(line, left, text, right, comment, junk);
    SplitAtCommas(text);
  }

  lemma LineHoldsEvent(line: string, left: string, fields: seq<string>, right: string, comment: string, junk: nat)
    requires |fields| == 5 && forall i | 0 <= i < 5 :: ',' !in fields[i]
    requires Join(fields) != "" && IsLine(line, left, Join(fields), right, comment)
    ensures ParseLine(line, junk)
            == Parsed(Event(fields[0], ScanUnsigned(fields[1], junk),
                            Atoi(fields[2]), Atoi(fields[3]), Atoi(fields[4])))
  {
    LineIsItsText(line, left, Join(fields), right, comment, junk);
    SplitJoin(fields);
  }

  // ---------------------------------------------------------------------------------
  // and every line is of that form

  lemma {:induction false} SplitComment(line: string) returns (before: string, comment: string)
    ensures line == before + comment && '#' !in before && Comment(comment)
  {
    if line == "" || line[0] == '#' {
      before, comment := "", line;
      assert line == before + comment;
    } else {
      before, comment := SplitComment(line[1..]);
      before := [line[0]] + before;
      assert line == before + comment;
    }
  }

  lemma {:induction false} SplitLeft(s: string) returns (left: string, rest: string)
    ensures s == left + rest && Blanks(left) && (rest != "" ==> !Blanks([rest[0]]))
  {
    if s == "" || !Blanks([s[0]]) {
      left, rest := "", s;
    } else {
      left, rest := SplitLeft(s[1..]);
      assert Blanks([s[0]]) && [s[0]][0] == s[0];
      left := [s[0]] + left;
      assert s == left + rest;
    }
  }

  lemma {:induction false} SplitRight(s: string) returns (rest: string, right: string)
    ensures s == rest + right && Blanks(right) && (rest != "" ==> !Blanks([rest[|rest| - 1]]))
  {
    var n := |s| - 1;
    if s == "" || !Blanks([s[n]]) {
      rest, right := s, "";
    } else {
      rest, right := SplitRight(s[..n]);
      assert Blanks([s[n]]) && [s[n]][0] == s[n];
      right := right + [s[n]];
      assert s == rest + right;
    }
  }

  lemma EveryLineHasAText(line: string) returns (left: string, text: string, right: string, comment: string)
    ensures IsLine(line, left, text, right, comment)
  {
    var before, rest;
    before, comment := SplitComment(line);
    left, rest := SplitLeft(before);
    text, right := SplitRight(rest);
    assert before == left + text + right;
    assert forall i | 0 <= i < |text| :: text[i] == before[|left| + i];
    if text != "" {
      assert text[0] == rest[0];
    }
  }

  // ---------------------------------------------------------------------------------
  // Logs

  /** The events of the lines that hold one, in order. */
  function EventsOf(results: seq<LineResult>): seq<Event> {
    if results == [] then []
    else (if results[0].Parsed? then [results[0].event] else []) + EventsOf(results[1..])
  }

  predicate SomeMalformed(results: seq<LineResult>) {
    exists i | 0 <= i < |results| :: results[i].Malformed?
  }

  lemma MalformedFirstOrLater(results: seq<LineResult>)
    requires results != []
    ensures SomeMalformed(results) <==> results[0].Malformed? || SomeMalformed(results[1..])
  {
    var rest := results[1..];
    if SomeMalformed(rest) {
      var i :| 0 <= i < |rest| && rest[i].Malformed?;
      assert results[i + 1].Malformed?;
    }
    if SomeMalformed(results) && !results[0].Malformed? {
      var i :| 0 <= i < |results| && results[i].Malformed?;
      assert rest[i - 1].Malformed?;
    }
  }

  lemma {:induction false} CollectMeaning(results: seq<LineResult>)
    ensures Collect(results) == if SomeMalformed(results) then None else Some(EventsOf(results))
  {
    if results != [] {
      var rest := results[1..];
      CollectMeaning(rest);
      MalformedFirstOrLater(results);
      assert [] + EventsOf(rest) == EventsOf(rest);
      match results[0] {
        case Blank => assert Collect(results) == Collect(rest);
        case Malformed =>
        case Parsed(event) =>
      }
    }
  }

  /** A text parses exactly if no line is malformed, and then to the events of its lines. */
  lemma LogMeaning(text: string, junk: nat)
    ensures var results := Results(Lines(text), junk);
            ParseLog(text, junk) == if SomeMalformed(results) then None else Some(EventsOf(results))
  {
    CollectMeaning(Results(Lines(text), junk));
  }

  /** The lines of a text are what its newlines separate; the last one needs none. */
  lemma {:induction false} TextIsItsLines(lines: seq<string>, last: string)
    requires '\n' !in last && forall i | 0 <= i < |lines| :: '\n' !in lines[i]
    ensures Lines(Unlines(lines) + last) == lines + if last == "" then [] else [last]
  {
    UnlinesAreWhole(lines);
    LinesUnlines(lines);
    LinesJoin(Unlines(lines), last);
    OneLine(last);
  }

  lemma {:induction false} OneLine(last: string)
    requires '\n' !in last
    ensures Lines(last) == if last == "" then [] else [last]
  {
    if last != "" {
      assert last[..|last|] == last;
      LinesAt(last, |last|);
    }
  }

  lemma {:induction false} UnlinesAreWhole(lines: seq<string>)
    ensures WholeLines(Unlines(lines))
  {
    if lines != [] {
      UnlinesAreWhole(lines[1..]);
    }
  }

  // ---------------------------------------------------------------------------------
  // Printing

  /** A printed line: the name, the time, the place, the detail, and for a key its name as a
      comment if it has one. */
  lemma PrintedLayout(names: KeyNames, e: Event)
    ensures PrintedLine(names, e) ==
            e.name + "," + Decimal(e.time) + "," + Decimal(e.x) + "," + Decimal(e.y) + "," + Decimal(e.detail)
            + (if (e.name == "KeyPress" || e.name == "KeyRelease") && names(e.detail).Some?
               then " # " + names(e.detail).value else "")
  {
    JoinFive(e.name, Decimal(e.time), Decimal(e.x), Decimal(e.y), Decimal(e.detail));
  }

  lemma {:induction false} JoinMore(f: string, fields: seq<string>)
    requires fields != []
    ensures Join([f] + fields) == f + "," + Join(fields)
  {
    assert ([f] + fields)[1..] == fields;
  }

  lemma JoinFive(a: string, b: string, c: string, d: string, e: string)
    ensures Join([a, b, c, d, e]) == a + "," + b + "," + c + "," + d + "," + e
  {
    JoinMore(d, [e]);
    JoinMore(c, [d, e]);
    JoinMore(b, [c, d, e]);
    JoinMore(a, [b, c, d, e]);
    assert [d] + [e] == [d, e] && [c] + [d, e] == [c, d, e];
    assert [b] + [c, d, e] == [b, c, d, e] && [a] + [b, c, d, e] == [a, b, c, d, e];
  }
}
