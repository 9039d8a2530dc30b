/** Calendar text: escaping as in section 3.3.11 of RFC 5545, and a file whose lines can be told apart again. */
module Calendar {
  import opened Wrappers

  // ----- Escaping -----

  /** replaceAll with a pattern of one character. */
  function ReplaceAll(s: string, c: char, replacement: string): string {
    if s == "" then "" else (if s[0] == c then replacement else [s[0]]) + ReplaceAll(s[1..], c, replacement)
  }

  /** Backslashes first, then newlines, semicolons and commas: four passes over the whole text. */
  function EscapeIcsText(value: string): string {
    ReplaceAll(ReplaceAll(ReplaceAll(ReplaceAll(value, '\\', "\\\\"), '\n', "\\n"), ';', "\\;"), ',', "\\,")
  }

  /** What one character of a TEXT value becomes. */
  function EscapedChar(c: char): string {
    if c == '\\' then "\\\\"
    else if c == '\n' then "\\n"
    else if c == ';' then "\\;"
    else if c == ',' then "\\,"
    else [c]
  }

  /** One pass, character by character. */
  function EscapeOnce(s: string): string {
    if s == "" then "" else EscapedChar(s[0]) + EscapeOnce(s[1..])
  }

  /** The TEXT value an escaped string stands for; nothing when a backslash introduces no known escape. */
  function Unescape(s: string): Option<string> {
    if s == "" then Some("")
    else if s[0] != '\\' then
      match Unescape(s[1..])
      case None => None
      case Some(rest) => Some([s[0]] + rest)
    else if |s| == 1 || s[1] !in {'\\', ';', ',', 'n', 'N'} then None
    else
      match Unescape(s[2..])
      case None => None
      case Some(rest) => Some([if s[1] == 'n' || s[1] == 'N' then '\n' else s[1]] + rest)
  }

  lemma {:induction false} ReplaceAllConcat(s: string, t: string, c: char, r: string)
    ensures ReplaceAll(s + t, c, r) == ReplaceAll(s, c, r) + ReplaceAll(t, c, r)
  {
    if s == "" {
      assert s + t == t;
    } else {
      assert (s + t)[1..] == s[1..] + t;
      ReplaceAllConcat(s[1..], t, c, r);
    }
  }

  lemma ReplaceAllOne(d: char, c: char, r: string)
    ensures ReplaceAll([d], c, r) == if d == c then r else [d]
  {
    assert [d][1..] == "";
  }

  lemma ReplaceAllTwo(d: char, e: char, c: char, r: string)
    requires d != c && e != c
    ensures ReplaceAll([d, e], c, r) == [d, e]
  {
    assert [d, e][1..] == [e];
    ReplaceAllOne(e, c, r);
  }

  /** The four passes take a text apart at any place. */
  lemma EscapeConcat(s: string, t: string)
    ensures EscapeIcsText(s + t) == EscapeIcsText(s) + EscapeIcsText(t)
  {
    var s1, t1 := ReplaceAll(s, '\\', "\\\\"), ReplaceAll(t, '\\', "\\\\");
    var s2, t2 := ReplaceAll(s1, '\n', "\\n"), ReplaceAll(t1, '\n', "\\n");
    var s3, t3 := ReplaceAll(s2, ';', "\\;"), ReplaceAll(t2, ';', "\\;");
    ReplaceAllConcat(s, t, '\\', "\\\\");
    ReplaceAllConcat(s1, t1, '\n', "\\n");
    ReplaceAllConcat(s2, t2, ';', "\\;");
    ReplaceAllConcat(s3, t3, ',', "\\,");
  }

  /** No pass touches what an earlier one wrote for a character. */
  lemma EscapeOneChar(c: char)
    ensures EscapeIcsText([c]) == EscapedChar(c)
  {
    ReplaceAllOne(c, '\\', "\\\\");
    if c == '\\' {
      ReplaceAllTwo('\\', '\\', '\n', "\\n");
      ReplaceAllTwo('\\', '\\', ';', "\\;");
      ReplaceAllTwo('\\', '\\', ',', "\\,");
    } else {
      ReplaceAllOne(c, '\n', "\\n");
      if c == '\n' {
        ReplaceAllTwo('\\', 'n', ';', "\\;");
        ReplaceAllTwo('\\', 'n', ',', "\\,");
      } else {
        ReplaceAllOne(c, ';', "\\;");
        if c == ';' {
          ReplaceAllTwo('\\', ';', ',', "\\,");
        } else {
          ReplaceAllOne(c, ',', "\\,");
        }
      }
    }
  }

  /** The four passes in their order are one pass, on every text. */
  lemma {:induction false} FourPassesAreOne(s: string)
    ensures EscapeIcsText(s) == EscapeOnce(s)
  {
    if s != "" {
      assert s == [s[0]] + s[1..];
      EscapeConcat([s[0]], s[1..]);
      EscapeOneChar(s[0]);
      FourPassesAreOne(s[1..]);
    }
  }

  lemma {:induction false} UnescapeInvertsOnePass(s: string)
    ensures Unescape(EscapeOnce(s)) == Some(s)
  {
    if s != "" {
      UnescapeInvertsOnePass(s[1..]);
      var head, rest := EscapedChar(s[0]), EscapeOnce(s[1..]);
      assert (head + rest)[|head|..] == rest;
      assert s == [s[0]] + s[1..];
    }
  }

  /** Escaping loses nothing: a calendar reader gets every title and venue back. */
  lemma UnescapeInvertsEscape(s: string)
    ensures Unescape(EscapeIcsText(s)) == Some(s)
  {
    FourPassesAreOne(s);
    UnescapeInvertsOnePass(s);
  }

  /** A TEXT value: newlines, semicolons, commas and backslashes appear only in their escapes. */
  predicate IsTextValue(s: string) {
    if s == "" then true
    else if s[0] == '\\' then |s| >= 2 && s[1] in {'\\', ';', ',', 'n', 'N'} && IsTextValue(s[2..])
    else s[0] !in {'\n', ';', ','} && IsTextValue(s[1..])
  }

  lemma {:induction false} OnePassIsTextValue(s: string)
    ensures IsTextValue(EscapeOnce(s))
  {
    if s != "" {
      OnePassIsTextValue(s[1..]);
      var head, rest := EscapedChar(s[0]), EscapeOnce(s[1..]);
      assert (head + rest)[|head|..] == rest;
    }
  }

  /** What escaping gives is a TEXT value, so no character of it ends the property it stands in. */
  lemma EscapedIsTextValue(s: string)
    ensures IsTextValue(EscapeIcsText(s))
  {
    FourPassesAreOne(s);
    OnePassIsTextValue(s);
  }

  // ----- Why backslashes come first -----

  /** The same passes with the backslashes last. */
  function EscapeBackslashesLast(s: string): string {
    ReplaceAll(ReplaceAll(ReplaceAll(ReplaceAll(s, '\n', "\\n"), ';', "\\;"), ',', "\\,"), '\\', "\\\\")
  }

  lemma {:induction false} ReplaceAllGrows(s: string, c: char, r: string)
    requires |r| == 2
    ensures c in s ==> |s| < |ReplaceAll(s, c, r)|
    ensures c !in s ==> ReplaceAll(s, c, r) == s
  {
    if s != "" {
      ReplaceAllGrows(s[1..], c, r);
      assert s == [s[0]] + s[1..];
    }
  }

  /** Doubled backslashes unescape to the text they were doubled in. */
  lemma {:induction false} UnescapeInvertsDoubling(s: string)
    ensures Unescape(ReplaceAll(s, '\\', "\\\\")) == Some(s)
  {
    if s != "" {
      UnescapeInvertsDoubling(s[1..]);
      var head, rest := if s[0] == '\\' then "\\\\" else [s[0]], ReplaceAll(s[1..], '\\', "\\\\");
      assert (head + rest)[|head|..] == rest;
      assert s == [s[0]] + s[1..];
    }
  }

  /** With the backslashes last exactly the texts without a newline, a semicolon or a comma come back. */
  lemma BackslashesMustComeFirst(s: string)
    ensures Unescape(EscapeBackslashesLast(s)) == Some(s) <==> '\n' !in s && ';' !in s && ',' !in s
  {
    var s1 := ReplaceAll(s, '\n', "\\n");
    var s2 := ReplaceAll(s1, ';', "\\;");
    var s3 := ReplaceAll(s2, ',', "\\,");
    ReplaceAllGrows(s, '\n', "\\n");
    ReplaceAllGrows(s1, ';', "\\;");
    ReplaceAllGrows(s2, ',', "\\,");
    UnescapeInvertsDoubling(s3);
  }

  // ----- The file -----

  predicate NewlineFree(s: string) {
    forall i :: 0 <= i < |s| ==> s[i] != '\n'
  }

  lemma {:induction false} OnePassIsNewlineFree(s: string)
    ensures NewlineFree(EscapeOnce(s))
  {
    if s != "" {
      OnePassIsNewlineFree(s[1..]);
    }
  }

  lemma {:induction false} EscapedIsNewlineFree(s: string)
    ensures NewlineFree(EscapeIcsText(s))
  {
    FourPassesAreOne(s);
    OnePassIsNewlineFree(s);
  }

  const CRLF: string := "\r\n"

  /** lines.join(CRLF) followed by a last CRLF. */
  function Joined(lines: seq<string>): string {
    if lines == [] then "" else lines[0] + CRLF + Joined(lines[1..])
  }

  /** split(CRLF): the pieces between the leftmost occurrences. */
  function Split(s: string): (pieces: seq<string>)
    ensures pieces != []
  {
    if s == "" then [""]
    else if |s| >= 2 && s[0] == '\r' && s[1] == '\n' then [""] + Split(s[2..])
    else
      var rest := Split(s[1..]);
      [[s[0]] + rest[0]] + rest[1..]
  }

  /** A line without a newline ends at the CRLF behind it, even when it ends in a bare carriage return. */
  lemma {:induction false} SplitLine(line: string, rest: string)
    requires NewlineFree(line)
    ensures Split(line + CRLF + rest) == [line] + Split(rest)
    decreases |line|
  {
    var s := line + CRLF + rest;
    if line == "" {
      assert s[2..] == rest;
    } else {
      assert s[1..] == line[1..] + CRLF + rest;
      SplitLine(line[1..], rest);
      assert s[1] == if |line| > 1 then line[1] else '\r';
      assert [s[0]] + line[1..] == line;
    }
  }

  lemma {:induction false} SplitInvertsJoin(lines: seq<string>)
    requires forall i :: 0 <= i < |lines| ==> NewlineFree(lines[i])
    ensures Split(Joined(lines)) == lines + [""]
  {
    if lines != [] {
      SplitLine(lines[0], Joined(lines[1..]));
      SplitInvertsJoin(lines[1..]);
    }
  }

  datatype CalendarEvent = CalendarEvent(id: string, title: string, venue: string, reservationUrl: string)

  /** The formatted times: texts a date library produces, none of which holds a newline. */
  datatype Times = Times(stamp: string, start: string, end: string, cancellation: string)

  predicate Formatted(t: Times) {
    NewlineFree(t.stamp) && NewlineFree(t.start) && NewlineFree(t.end)
  }

  function CalendarDetails(e: CalendarEvent, t: Times): string {
    "Your ShowUp attendance reservation on Stellar Testnet." + "\n"
    + "Free cancellation until " + t.cancellation + "." + "\n"
    + "Open reservation: " + e.reservationUrl
  }

  const HEADER: seq<string> := [
    "BEGIN:VCALENDAR",
    "VERSION:2.0",
    "PRODID:-//ShowUp//Attendance Commitment//EN",
    "CALSCALE:GREGORIAN",
    "METHOD:PUBLISH",
    "BEGIN:VEVENT"
  ]

  const FOOTER: seq<string> := ["END:VEVENT", "END:VCALENDAR"]

  function EventLines(e: CalendarEvent, t: Times): seq<string> {
    [
      "UID:showup-event-" + EscapeIcsText(e.id) + "@showup",
      "DTSTAMP:" + t.stamp,
      "DTSTART:" + t.start,
      "DTEND:" + t.end,
      "SUMMARY:" + EscapeIcsText(e.title),
      "LOCATION:" + EscapeIcsText(e.venue),
      "DESCRIPTION:" + EscapeIcsText(CalendarDetails(e, t)),
      "URL:" + EscapeIcsText(e.reservationUrl)
    ]
  }

  function IcsLines(e: CalendarEvent, t: Times): seq<string> {
    HEADER + EventLines(e, t) + FOOTER
  }

  function BuildCalendarIcs(e: CalendarEvent, t: Times): string {
    Joined(IcsLines(e, t))
  }

  predicate AllNewlineFree(lines: seq<string>) {
    forall i :: 0 <= i < |lines| ==> NewlineFree(lines[i])
  }

  lemma FixedLinesAreNewlineFree()
    ensures AllNewlineFree(HEADER) && AllNewlineFree(FOOTER)
  {
    assert NewlineFree(HEADER[0]) && NewlineFree(HEADER[1]) && NewlineFree(HEADER[2]);
    assert NewlineFree(HEADER[3]) && NewlineFree(HEADER[4]) && NewlineFree(HEADER[5]);
    assert NewlineFree(FOOTER[0]) && NewlineFree(FOOTER[1]);
  }

  lemma EventLinesAreNewlineFree(e: CalendarEvent, t: Times)
    requires Formatted(t)
    ensures AllNewlineFree(EventLines(e, t))
  {
    EscapedIsNewlineFree(e.id);
    EscapedIsNewlineFree(e.title);
    EscapedIsNewlineFree(e.venue);
    EscapedIsNewlineFree(CalendarDetails(e, t));
    EscapedIsNewlineFree(e.reservationUrl);
  }

  /** What is built splits into exactly the sixteen lines, whatever title, venue, id and url contain. */
  lemma FileSplitsIntoItsLines(e: CalendarEvent, t: Times)
    requires Formatted(t)
    ensures |IcsLines(e, t)| == 16
    ensures Split(BuildCalendarIcs(e, t)) == IcsLines(e, t) + [""]
  {
    FixedLinesAreNewlineFree();
    EventLinesAreNewlineFree(e, t);
    SplitInvertsJoin(IcsLines(e, t));
  }

  /** A line that names a property and gives a text back. */
  predicate Recovers(line: string, name: string, text: string) {
    name <= line && Unescape(line[|name|..]) == Some(text)
  }

  lemma LineRecovers(name: string, text: string)
    ensures Recovers(name + EscapeIcsText(text), name, text)
  {
    UnescapeInvertsEscape(text);
    assert (name + EscapeIcsText(text))[|name|..] == EscapeIcsText(text);
  }

  /** What does not depend on the event, in its place. */
  lemma FrameIsFixed(e: CalendarEvent, t: Times)
    requires Formatted(t)
    ensures var lines := Split(BuildCalendarIcs(e, t));
      && |lines| == 17
      && lines[..6] == ["BEGIN:VCALENDAR", "VERSION:2.0", "PRODID:-//ShowUp//Attendance Commitment//EN",
                        "CALSCALE:GREGORIAN", "METHOD:PUBLISH", "BEGIN:VEVENT"]
      && lines[14..] == ["END:VEVENT", "END:VCALENDAR", ""]
  {
    FileSplitsIntoItsLines(e, t);
  }

  lemma DetailsAreThreeSentences(e: CalendarEvent, t: Times)
    ensures CalendarDetails(e, t) ==
      "Your ShowUp attendance reservation on Stellar Testnet.\nFree cancellation until " + t.cancellation
      + ".\nOpen reservation: " + e.reservationUrl
  {
    var first, second := "Your ShowUp attendance reservation on Stellar Testnet.", "Free cancellation until ";
    assert first + "\n" + second == "Your ShowUp attendance reservation on Stellar Testnet.\nFree cancellation until ";
    assert "." + "\n" + "Open reservation: " == ".\nOpen reservation: ";
  }

  /** A reader of the file recovers the times, the title, the venue, the details and the link. */
  lemma ReaderRecoversTexts(e: CalendarEvent, t: Times)
    requires Formatted(t)
    ensures var lines := Split(BuildCalendarIcs(e, t));
      && |lines| == 17
      && lines[6] == "UID:showup-event-" + EscapeIcsText(e.id) + "@showup"
      && lines[7..10] == ["DTSTAMP:" + t.stamp, "DTSTART:" + t.start, "DTEND:" + t.end]
      && Recovers(lines[10], "SUMMARY:", e.title)
      && Recovers(lines[11], "LOCATION:", e.venue)
      && Recovers(lines[12], "DESCRIPTION:",
                  "Your ShowUp attendance reservation on Stellar Testnet.\nFree cancellation until " + t.cancellation
                  + ".\nOpen reservation: " + e.reservationUrl)
      && Recovers(lines[13], "URL:", e.reservationUrl)
  {
    FileSplitsIntoItsLines(e, t);
    var lines := IcsLines(e, t);
    assert lines[10] == EventLines(e, t)[4] && lines[11] == EventLines(e, t)[5];
    assert lines[12] == EventLines(e, t)[6] && lines[13] == EventLines(e, t)[7];
    LineRecovers("SUMMARY:", e.title);
    LineRecovers("LOCATION:", e.venue);
    LineRecovers("DESCRIPTION:", CalendarDetails(e, t));
    DetailsAreThreeSentences(e, t);
    LineRecovers("URL:", e.reservationUrl);
  }
}
