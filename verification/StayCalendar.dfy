/** The whole calendar file of a stay (apps/booking-web/lib/calendarFile.ts, `stayCalendarFile`), read
back the way section 3.1 of RFC 5545 describes: unfold, split at line breaks, take each property's value. */
module StayCalendar {
  import opened Options
  import opened CalendarFile

  /** The event's texts; the stamp and the two days are already in their compact form. */
  datatype Stay = Stay(reference: string, title: string, location: Option<string>, notes: string,
                       stamp: string, firstDay: string, dayAfter: string)

  /** Dates and stamps are digits and letters. */
  predicate PlainDates(e: Stay) { '\n' !in e.stamp && '\n' !in e.firstDay && '\n' !in e.dayAfter }

  const OPENING := ["BEGIN:VCALENDAR", "VERSION:2.0", "PRODID:-//Vayada//Booking//EN",
                    "CALSCALE:GREGORIAN", "METHOD:PUBLISH", "BEGIN:VEVENT"]

  const DOMAIN := "@booking.vayada.com"

  function Uid(e: Stay): string { EscapeText(e.reference) + DOMAIN }

  function DateLines(e: Stay): seq<string> {
    ["DTSTAMP:" + e.stamp, "DTSTART;VALUE=DATE:" + e.firstDay, "DTEND;VALUE=DATE:" + e.dayAfter]
  }

  function Head(e: Stay): seq<string> { OPENING + ["UID:" + Uid(e)] + DateLines(e) }

  function LocationLines(e: Stay): seq<string> {
    if e.location.Some? && e.location.value != "" then ["LOCATION:" + EscapeText(e.location.value)] else []
  }

  const TAIL := ["TRANSP:TRANSPARENT", "END:VEVENT", "END:VCALENDAR"]

  function ContentLines(e: Stay): seq<string> {
    Head(e) + ["SUMMARY:" + EscapeText(e.title)] + LocationLines(e) + ["DESCRIPTION:" + EscapeText(e.notes)] + TAIL
  }

  function FoldAll(lines: seq<string>): seq<string> {
    seq(|lines|, i requires 0 <= i < |lines| => FoldText(lines[i]))
  }

  /** `.map(fold).join("\r\n").concat("\r\n")`. */
  function FileOf(lines: seq<string>): string { Join(FoldAll(lines), CRLF) + CRLF }

  function StayCalendarFile(e: Stay): string { FileOf(ContentLines(e)) }

  // ----- the reader -----

  function BreakAt(s: string): (i: nat)
    ensures i <= |s|
  {
    if s == [] || StartsBreak(s) then 0 else 1 + BreakAt(s[1..])
  }

  /** The lines of a text whose lines each end with a line break. */
  function SplitLines(s: string): seq<string>
    decreases |s|
  {
    var i := BreakAt(s);
    if s == [] then [] else if i + 2 > |s| then [s] else [s[..i]] + SplitLines(s[i + 2..])
  }

  function ReadLines(file: string): seq<string> { SplitLines(Unfold(file)) }

  /** The value of the first line of a property, unescaped. */
  function Field(lines: seq<string>, name: string): Option<string> {
    if lines == [] then None
    else if name <= lines[0] then Some(Unescape(lines[0][|name|..]))
    else Field(lines[1..], name)
  }

  // ----- lines and line breaks -----

  function Terminated(lines: seq<string>): string {
    if lines == [] then [] else lines[0] + CRLF + Terminated(lines[1..])
  }

  predicate NoFeed(lines: seq<string>) { forall i :: 0 <= i < |lines| ==> '\n' !in lines[i] }

  lemma {:induction false} BreakAfter(line: string, rest: string)
    requires '\n' !in line
    ensures BreakAt(line + CRLF + rest) == |line|
  {
    var s := line + CRLF + rest;
    if line == [] {
      assert StartsBreak(s);
    } else {
      assert !StartsBreak(s) by {
        assert s[1] == if |line| >= 2 then line[1] else '\r';
        if |line| >= 2 { assert line[1] in line; }
      }
      assert s[1..] == line[1..] + CRLF + rest;
      BreakAfter(line[1..], rest);
    }
  }

  lemma {:induction false} SplitTerminated(lines: seq<string>)
    requires NoFeed(lines)
    ensures SplitLines(Terminated(lines)) == lines
  {
    if lines != [] {
      var rest := Terminated(lines[1..]);
      var s := lines[0] + CRLF + rest;
      BreakAfter(lines[0], rest);
      SplitTerminated(lines[1..]);
      assert s[..|lines[0]|] == lines[0] && s[|lines[0]| + 2..] == rest;
    }
  }

  lemma {:induction false} JoinTerminated(lines: seq<string>)
    requires lines != []
    ensures Join(lines, CRLF) + CRLF == Terminated(lines)
  {
    if |lines| == 1 {
      assert Terminated(lines[1..]) == [];
      assert Terminated(lines) == lines[0] + CRLF + [];
    } else {
      JoinTerminated(lines[1..]);
      assert Join(lines, CRLF) + CRLF == lines[0] + CRLF + (Join(lines[1..], CRLF) + CRLF);
    }
  }

  /** Every line begins with a character that is not white space, and has no line feed. */
  predicate Readable(lines: seq<string>) {
    NoFeed(lines) && forall i :: 0 <= i < |lines| ==> lines[i] != [] && !IsBlank(lines[i][0])
  }

  lemma {:induction false} FoldKeepsFirst(line: string)
    requires line != []
    ensures FoldText(line) != [] && FoldText(line)[0] == line[0]
  {
    var parts := Parts(line, FIRST);
    assert Fill(line, FIRST) >= 1;
    assert parts[0] == line[..Fill(line, FIRST)];
  }

  lemma {:induction false} UnfoldTerminated(lines: seq<string>)
    requires Readable(lines)
    ensures Unfold(Terminated(FoldAll(lines))) == Terminated(lines)
  {
    if lines != [] {
      var folded := FoldAll(lines);
      var rest := Terminated(folded[1..]);
      assert folded[1..] == FoldAll(lines[1..]);
      if |lines| > 1 { FoldKeepsFirst(lines[1]); assert rest[0] == lines[1][0]; }
      UnfoldAcrossBreak(folded[0], rest);
      LinesUnfold(lines[0]);
      UnfoldTerminated(lines[1..]);
    }
  }

  /** Reading a file made of readable lines gives exactly those lines. */
  lemma ReadsBack(lines: seq<string>)
    requires lines != [] && Readable(lines)
    ensures ReadLines(FileOf(lines)) == lines
  {
    JoinTerminated(FoldAll(lines));
    UnfoldTerminated(lines);
    SplitTerminated(lines);
  }

  // ----- physical lines -----

  function Continued(parts: seq<string>): seq<string> {
    seq(|parts|, i requires 0 <= i < |parts| => " " + parts[i])
  }

  /** The physical lines of one content line: later pieces begin with a space. */
  function Physical(line: string): seq<string> {
    var parts := Parts(line, FIRST);
    [parts[0]] + Continued(parts[1..])
  }

  function AllPhysical(lines: seq<string>): seq<string> {
    if lines == [] then [] else Physical(lines[0]) + AllPhysical(lines[1..])
  }

  lemma {:induction false} TerminatedConcat(a: seq<string>, b: seq<string>)
    ensures Terminated(a + b) == Terminated(a) + Terminated(b)
  {
    if a == [] {
      assert a + b == b;
    } else {
      assert (a + b)[1..] == a[1..] + b;
      TerminatedConcat(a[1..], b);
      assert Terminated(a + b) == a[0] + CRLF + (Terminated(a[1..]) + Terminated(b));
    }
  }

  lemma {:induction false} JoinedParts(first: string, rest: seq<string>)
    ensures Join([first] + rest, FOLD) + CRLF == Terminated([first] + Continued(rest))
    decreases |rest|
  {
    var parts, lines := [first] + rest, [first] + Continued(rest);
    assert parts[1..] == rest && lines[1..] == Continued(rest);
    if rest == [] {
      assert Terminated(lines) == first + CRLF + [];
    } else {
      JoinedParts(rest[0], rest[1..]);
      assert rest == [rest[0]] + rest[1..];
      var below := [rest[0]] + Continued(rest[1..]);
      assert Continued(rest) == [" " + rest[0]] + Continued(rest[1..]);
      assert Continued(rest)[1..] == below[1..];
      assert Terminated(Continued(rest)) == " " + Terminated(below);
      assert FOLD == CRLF + " ";
      assert Join(parts, FOLD) + CRLF == first + CRLF + (" " + (Join(rest, FOLD) + CRLF));
    }
  }

  lemma {:induction false} FileIsPhysical(lines: seq<string>)
    ensures Terminated(FoldAll(lines)) == Terminated(AllPhysical(lines))
  {
    if lines != [] {
      assert FoldAll(lines)[1..] == FoldAll(lines[1..]);
      FileIsPhysical(lines[1..]);
      var parts := Parts(lines[0], FIRST);
      assert parts == [parts[0]] + parts[1..];
      JoinedParts(parts[0], parts[1..]);
      TerminatedConcat(Physical(lines[0]), AllPhysical(lines[1..]));
    }
  }

  ghost predicate ShortAndClean(lines: seq<string>) {
    forall i :: 0 <= i < |lines| ==> Octets(lines[i]) <= FIRST && '\n' !in lines[i]
  }

  lemma {:induction false} PhysicalShort(line: string)
    requires '\n' !in line
    ensures ShortAndClean(Physical(line))
  {
    var parts := Parts(line, FIRST);
    PartsAreLegal(line, FIRST);
    forall i | 0 <= i < |parts| ensures '\n' !in parts[i] {
      if '\n' in parts[i] { PieceInLine(parts, i, '\n'); }
    }
    forall i | 1 <= i < |parts| ensures Octets(" " + parts[i]) <= FIRST {
      assert (" " + parts[i])[1..] == parts[i];
    }
  }

  lemma {:induction false} AllPhysicalShort(lines: seq<string>)
    requires NoFeed(lines)
    ensures ShortAndClean(AllPhysical(lines))
  {
    if lines != [] {
      PhysicalShort(lines[0]);
      AllPhysicalShort(lines[1..]);
    }
  }

  /** Every physical line of the file, as split at its line breaks, has at most 75 octets. */
  lemma PhysicalLinesAreShort(lines: seq<string>)
    requires lines != [] && NoFeed(lines)
    ensures forall line :: line in SplitLines(FileOf(lines)) ==> Octets(line) <= FIRST
  {
    JoinTerminated(FoldAll(lines));
    FileIsPhysical(lines);
    AllPhysicalShort(lines);
    SplitTerminated(AllPhysical(lines));
  }

  // ----- the event read back -----

  lemma ReadableConcat(a: seq<string>, b: seq<string>)
    requires Readable(a) && Readable(b)
    ensures Readable(a + b)
  {
  }

  lemma {:induction false} ReadableLine(prefix: string, rest: string)
    requires prefix != [] && !IsBlank(prefix[0]) && '\n' !in prefix && '\n' !in rest
    ensures Readable([prefix + rest])
  {
  }

  lemma {:induction false} TextReadable(prefix: string, text: string)
    requires prefix != [] && !IsBlank(prefix[0]) && '\n' !in prefix
    ensures Readable([prefix + EscapeText(text)])
  {
    ChainIsOnePass(text);
    EscapedHasNoBreak(text);
  }

  lemma OpeningReadable()
    ensures Readable(OPENING)
  {
  }

  lemma {:induction false} UidReadable(e: Stay)
    ensures Readable(["UID:" + Uid(e)])
  {
    ChainIsOnePass(e.reference);
    EscapedHasNoBreak(e.reference);
    ReadableLine("UID:", Uid(e));
  }

  lemma {:induction false} DatesReadable(e: Stay)
    requires PlainDates(e)
    ensures Readable(DateLines(e))
  {
    ReadableLine("DTSTAMP:", e.stamp);
    ReadableLine("DTSTART;VALUE=DATE:", e.firstDay);
    ReadableLine("DTEND;VALUE=DATE:", e.dayAfter);
    ReadableConcat(["DTSTAMP:" + e.stamp], ["DTSTART;VALUE=DATE:" + e.firstDay]);
    ReadableConcat(["DTSTAMP:" + e.stamp] + ["DTSTART;VALUE=DATE:" + e.firstDay], ["DTEND;VALUE=DATE:" + e.dayAfter]);
    assert DateLines(e) ==
           ["DTSTAMP:" + e.stamp] + ["DTSTART;VALUE=DATE:" + e.firstDay] + ["DTEND;VALUE=DATE:" + e.dayAfter];
  }

  lemma {:induction false} HeadReadable(e: Stay)
    requires PlainDates(e)
    ensures Readable(Head(e))
  {
    OpeningReadable();
    UidReadable(e);
    DatesReadable(e);
    ReadableConcat(OPENING, ["UID:" + Uid(e)]);
    ReadableConcat(OPENING + ["UID:" + Uid(e)], DateLines(e));
  }

  lemma {:induction false} ContentReadable(e: Stay)
    requires PlainDates(e)
    ensures Readable(ContentLines(e))
  {
    HeadReadable(e);
    TextReadable("SUMMARY:", e.title);
    TextReadable("DESCRIPTION:", e.notes);
    if e.location.Some? { TextReadable("LOCATION:", e.location.value); }
    var summary := Head(e) + ["SUMMARY:" + EscapeText(e.title)];
    var notes := summary + LocationLines(e) + ["DESCRIPTION:" + EscapeText(e.notes)];
    ReadableConcat(Head(e), ["SUMMARY:" + EscapeText(e.title)]);
    ReadableConcat(summary, LocationLines(e));
    ReadableConcat(summary + LocationLines(e), ["DESCRIPTION:" + EscapeText(e.notes)]);
    ReadableConcat(notes, TAIL);
  }

  /** The line does not begin as the name does, going by its first two characters. */
  predicate Differs(line: string, name: string) {
    |line| >= 2 && |name| >= 2 && (line[0] != name[0] || line[1] != name[1])
  }

  lemma {:induction false} FieldSkips(before: seq<string>, name: string, rest: seq<string>)
    requires forall i :: 0 <= i < |before| ==> Differs(before[i], name)
    ensures Field(before + rest, name) == Field(rest, name)
  {
    if before == [] {
      assert before + rest == rest;
    } else {
      assert (before + rest)[1..] == before[1..] + rest && (before + rest)[0] == before[0];
      assert Differs(before[0], name);
      FieldSkips(before[1..], name, rest);
    }
  }

  lemma {:induction false} FieldHere(name: string, value: string, rest: seq<string>)
    ensures Field([name + value] + rest, name) == Some(Unescape(value))
  {
    assert name <= name + value && (name + value)[|name|..] == value;
  }

  lemma {:induction false} TextField(name: string, text: string, rest: seq<string>)
    ensures Field([name + EscapeText(text)] + rest, name) == Some(Normalized(text))
  {
    FieldHere(name, EscapeText(text), rest);
    ChainIsOnePass(text);
    EscapeThenUnescape(text, "");
    assert EscapeOnce(text) + "" == EscapeOnce(text);
    assert Normalized(text) + Unescape("") == Normalized(text);
  }

  /** No line of the head begins like the texts that follow it. */
  lemma {:induction false} AfterHead(e: Stay, name: string, rest: seq<string>)
    requires name in {"SUMMARY:", "LOCATION:", "DESCRIPTION:"}
    ensures Field(Head(e) + rest, name) == Field(rest, name)
  {
    assert forall line :: line in OPENING ==> Differs(line, name);
    assert Differs("UID:" + Uid(e), name);
    assert forall line :: line in DateLines(e) ==> Differs(line, name);
    FieldSkips(Head(e), name, rest);
  }

  lemma {:induction false} AfterOne(line: string, name: string, rest: seq<string>)
    requires Differs(line, name)
    ensures Field([line] + rest, name) == Field(rest, name)
  {
    FieldSkips([line], name, rest);
  }

  lemma {:induction false} TailHasNone(name: string)
    requires name == "LOCATION:"
    ensures Field(TAIL, name) == None
  {
    FieldSkips(TAIL, name, []);
    assert TAIL + [] == TAIL;
  }

  function AfterSummary(e: Stay): seq<string> { LocationLines(e) + (["DESCRIPTION:" + EscapeText(e.notes)] + TAIL) }

  lemma ContentByParts(e: Stay)
    ensures ContentLines(e) == Head(e) + (["SUMMARY:" + EscapeText(e.title)] + AfterSummary(e))
  {
  }

  lemma {:induction false} ReadTitle(e: Stay)
    ensures Field(ContentLines(e), "SUMMARY:") == Some(Normalized(e.title))
  {
    ContentByParts(e);
    AfterHead(e, "SUMMARY:", ["SUMMARY:" + EscapeText(e.title)] + AfterSummary(e));
    TextField("SUMMARY:", e.title, AfterSummary(e));
  }

  lemma {:induction false} ReadLocation(e: Stay)
    ensures Field(ContentLines(e), "LOCATION:") ==
            if e.location.Some? && e.location.value != "" then Some(Normalized(e.location.value)) else None
  {
    ContentByParts(e);
    AfterHead(e, "LOCATION:", ["SUMMARY:" + EscapeText(e.title)] + AfterSummary(e));
    AfterOne("SUMMARY:" + EscapeText(e.title), "LOCATION:", AfterSummary(e));
    var notes := ["DESCRIPTION:" + EscapeText(e.notes)] + TAIL;
    if LocationLines(e) == [] {
      assert AfterSummary(e) == notes;
      AfterOne("DESCRIPTION:" + EscapeText(e.notes), "LOCATION:", TAIL);
      TailHasNone("LOCATION:");
    } else {
      TextField("LOCATION:", e.location.value, notes);
    }
  }

  lemma {:induction false} ReadNotes(e: Stay)
    ensures Field(ContentLines(e), "DESCRIPTION:") == Some(Normalized(e.notes))
  {
    ContentByParts(e);
    AfterHead(e, "DESCRIPTION:", ["SUMMARY:" + EscapeText(e.title)] + AfterSummary(e));
    AfterOne("SUMMARY:" + EscapeText(e.title), "DESCRIPTION:", AfterSummary(e));
    var notes := ["DESCRIPTION:" + EscapeText(e.notes)] + TAIL;
    TextField("DESCRIPTION:", e.notes, TAIL);
    if LocationLines(e) == [] {
      assert AfterSummary(e) == notes;
    } else {
      AfterOne("LOCATION:" + EscapeText(e.location.value), "DESCRIPTION:", notes);
    }
  }

  lemma {:induction false} AfterOpening(rest: seq<string>)
    ensures Field(OPENING + rest, "UID:") == Field(rest, "UID:")
  {
    assert forall line :: line in OPENING ==> Differs(line, "UID:");
    FieldSkips(OPENING, "UID:", rest);
  }

  lemma {:induction false} UnescapeBefore(text: string, tail: string)
    requires '\\' !in tail
    ensures Unescape(EscapeText(text) + tail) == Normalized(text) + tail
  {
    ChainIsOnePass(text);
    EscapeThenUnescape(text, tail);
    PlainUnescapes(tail);
  }

  lemma {:induction false} ReadReference(e: Stay)
    ensures Field(ContentLines(e), "UID:") == Some(Normalized(e.reference) + DOMAIN)
  {
    var after := DateLines(e) + (["SUMMARY:" + EscapeText(e.title)] + AfterSummary(e));
    ContentByParts(e);
    assert ContentLines(e) == OPENING + (["UID:" + Uid(e)] + after);
    AfterOpening(["UID:" + Uid(e)] + after);
    FieldHere("UID:", Uid(e), after);
    UnescapeBefore(e.reference, DOMAIN);
  }

  lemma {:induction false} PlainUnescapes(s: string)
    requires '\\' !in s
    ensures Unescape(s) == s
  {
    if s != [] { PlainUnescapes(s[1..]); }
  }

  const STAMP := "DTSTAMP:"
  const START := "DTSTART;VALUE=DATE:"
  const END := "DTEND;VALUE=DATE:"

  /** What follows the UID. */
  function Dates(e: Stay, last: seq<string>): seq<string> {
    [STAMP + e.stamp] + ([START + e.firstDay] + ([END + e.dayAfter] + last))
  }

  lemma DatesInContent(e: Stay)
    ensures ContentLines(e) == OPENING + ["UID:" + Uid(e)] + Dates(e, ["SUMMARY:" + EscapeText(e.title)] + AfterSummary(e))
  {
    ContentByParts(e);
  }

  lemma {:induction false} InDates(e: Stay, last: seq<string>)
    ensures Field(Dates(e, last), STAMP) == Some(Unescape(e.stamp))
    ensures Field(Dates(e, last), START) == Some(Unescape(e.firstDay))
    ensures Field(Dates(e, last), END) == Some(Unescape(e.dayAfter))
  {
    var fromStart, fromEnd := [START + e.firstDay] + ([END + e.dayAfter] + last), [END + e.dayAfter] + last;
    FieldHere(STAMP, e.stamp, fromStart);
    AfterOther(STAMP + e.stamp, START, 5, fromStart);
    FieldHere(START, e.firstDay, fromEnd);
    AfterOther(STAMP + e.stamp, END, 2, fromStart);
    AfterOther(START + e.firstDay, END, 2, fromEnd);
    FieldHere(END, e.dayAfter, last);
  }

  /** The stamp, the first day and the day after the last are read back, each under its own name. */
  lemma {:induction false} ReadDates(e: Stay)
    ensures Field(ContentLines(e), STAMP) == Some(Unescape(e.stamp))
    ensures Field(ContentLines(e), START) == Some(Unescape(e.firstDay))
    ensures Field(ContentLines(e), END) == Some(Unescape(e.dayAfter))
  {
    var last := ["SUMMARY:" + EscapeText(e.title)] + AfterSummary(e);
    DatesInContent(e);
    InDates(e, last);
    BeforeDates(e, STAMP, Dates(e, last));
    BeforeDates(e, START, Dates(e, last));
    BeforeDates(e, END, Dates(e, last));
  }

  lemma {:induction false} AfterOther(line: string, name: string, k: nat, rest: seq<string>)
    requires k < |line| && k < |name| && line[k] != name[k]
    ensures Field([line] + rest, name) == Field(rest, name)
  {
    assert ([line] + rest)[1..] == rest && !(name <= line);
  }

  lemma {:induction false} BeforeDates(e: Stay, name: string, rest: seq<string>)
    requires name == STAMP || name == START || name == END
    ensures Field(OPENING + ["UID:" + Uid(e)] + rest, name) == Field(rest, name)
  {
    assert forall line :: line in OPENING ==> Differs(line, name);
    assert Differs("UID:" + Uid(e), name);
    FieldSkips(OPENING + ["UID:" + Uid(e)], name, rest);
  }

  /** The event is wrapped as section 3.6 of RFC 5545 asks. */
  lemma Wrapped(e: Stay)
    ensures var lines := ContentLines(e);
            && |lines| >= 9
            && lines[0] == "BEGIN:VCALENDAR" && lines[1] == "VERSION:2.0" && lines[5] == "BEGIN:VEVENT"
            && lines[|lines| - 2] == "END:VEVENT" && lines[|lines| - 1] == "END:VCALENDAR"
  {
  }

  /** Unfolding, splitting and unescaping a generated file recovers its lines and its texts, with CRLF
      read as LF; an empty location is not written; no physical line is longer than 75 octets. */
  lemma StayReadsBack(e: Stay)
    requires PlainDates(e)
    ensures ReadLines(StayCalendarFile(e)) == ContentLines(e)
    ensures var lines := ReadLines(StayCalendarFile(e));
            && Field(lines, "UID:") == Some(Normalized(e.reference) + DOMAIN)
            && Field(lines, "SUMMARY:") == Some(Normalized(e.title))
            && Field(lines, "DESCRIPTION:") == Some(Normalized(e.notes))
            && Field(lines, "LOCATION:") ==
               (if e.location.Some? && e.location.value != "" then Some(Normalized(e.location.value)) else None)
            && ('\\' !in e.stamp ==> Field(lines, "DTSTAMP:") == Some(e.stamp))
            && ('\\' !in e.firstDay ==> Field(lines, "DTSTART;VALUE=DATE:") == Some(e.firstDay))
            && ('\\' !in e.dayAfter ==> Field(lines, "DTEND;VALUE=DATE:") == Some(e.dayAfter))
    ensures forall line :: line in SplitLines(StayCalendarFile(e)) ==> Octets(line) <= FIRST
  {
    var lines := ContentLines(e);
    ContentReadable(e);
    ReadsBack(lines);
    PhysicalLinesAreShort(lines);
    ReadReference(e);
    ReadTitle(e);
    ReadLocation(e);
    ReadNotes(e);
    ReadDates(e);
    if '\\' !in e.stamp { PlainUnescapes(e.stamp); }
    if '\\' !in e.firstDay { PlainUnescapes(e.firstDay); }
    if '\\' !in e.dayAfter { PlainUnescapes(e.dayAfter); }
  }
}
