/** The calendar invite (meeting_agent.py, generate_ics): one VCALENDAR holding
    one VEVENT whose start and end are written in the floating local DATE-TIME
    form of RFC 5545, section 3.3.5 (YYYYMMDDTHHMMSS, no UTC marker), followed
    by the title as the summary. Lines end with a bare line feed. */
module Ics {
  import opened Results

  /** The calendar fields of a datetime on its own wall clock. */
  datatype DateTime = DateTime(year: int, month: int, day: int, hour: int, minute: int, second: int) {
    /** The ranges every datetime value keeps. */
    predicate Valid() {
      && 1 <= year <= 9999 && 1 <= month <= 12 && 1 <= day <= 31
      && 0 <= hour < 24 && 0 <= minute < 60 && 0 <= second < 60
    }
  }

  /** An invite's content: start, end and summary. */
  datatype Invite = Invite(start: DateTime, end: DateTime, title: string)

  const DefaultTitle := "Vendor\U{2013}Distributor Meeting"

  /** The fixed text of an invite, in order: the opening lines, the property
      names (each but the first closing the line before it), and the closing lines. */
  const BeginCalendar := "BEGIN:VCALENDAR\n"
  const BeginEvent := "VERSION:2.0\nBEGIN:VEVENT\n"
  const StartLabel := "DTSTART:"
  const EndLabel := "\nDTEND:"
  const TitleLabel := "\nSUMMARY:"
  const EndEvent := "\nEND:VEVENT\n"
  const EndCalendar := "END:VCALENDAR\n"

  const Head := BeginCalendar + BeginEvent + StartLabel
  const Tail := EndEvent + EndCalendar

  function Pow10(n: nat): (p: nat)
    ensures p >= 1
  {
    if n == 0 then 1 else 10 * Pow10(n - 1)
  }

  predicate IsDigit(c: char) {
    '0' <= c <= '9'
  }

  predicate AllDigits(s: string) {
    forall i :: 0 <= i < |s| ==> IsDigit(s[i])
  }

  function DigitChar(d: int): (c: char)
    requires 0 <= d < 10
    ensures IsDigit(c)
  {
    ('0' as int + d) as char
  }

  function DigitValue(c: char): int
    requires IsDigit(c)
  {
    c as int - '0' as int
  }

  /** `n` in exactly `width` decimal digits, padded with leading zeros. */
  function Pad(n: nat, width: nat): (s: string)
    requires n < Pow10(width)
    ensures |s| == width && AllDigits(s)
  {
    if width == 0 then [] else Pad(n / 10, width - 1) + [DigitChar(n % 10)]
  }

  /** The number a string of decimal digits denotes. */
  function ReadDigits(s: string): nat
    requires AllDigits(s)
  {
    if |s| == 0 then 0 else 10 * ReadDigits(s[..|s| - 1]) + DigitValue(s[|s| - 1])
  }

  /** Reading a padded number gives the number back. */
  lemma {:induction false} ReadPad(n: nat, width: nat)
    requires n < Pow10(width)
    ensures ReadDigits(Pad(n, width)) == n
  {
    if width > 0 {
      var s := Pad(n, width);
      assert s[..|s| - 1] == Pad(n / 10, width - 1);
      ReadPad(n / 10, width - 1);
    }
  }

  /** Three pieces written side by side can be cut apart again. */
  lemma SplitThree(a: string, b: string, c: string)
    ensures (a + b + c)[..|a|] == a
    ensures (a + b + c)[|a|..|a| + |b|] == b
    ensures (a + b + c)[|a| + |b|..] == c
  {
  }

  /** YYYYMMDD and HHMMSS. */
  function DatePart(d: DateTime): string
    requires d.Valid()
  {
    Pad(d.year, 4) + Pad(d.month, 2) + Pad(d.day, 2)
  }

  function TimePart(d: DateTime): string
    requires d.Valid()
  {
    Pad(d.hour, 2) + Pad(d.minute, 2) + Pad(d.second, 2)
  }

  /** The fifteen-character YYYYMMDDTHHMMSS form of a datetime. */
  function BasicFormat(d: DateTime): (s: string)
    requires d.Valid()
    ensures |s| == 15 && s[8] == 'T'
    ensures AllDigits(s[..8]) && AllDigits(s[9..])
  {
    SplitThree(DatePart(d), "T", TimePart(d));
    DatePart(d) + "T" + TimePart(d)
  }

  /** Reads the YYYYMMDDTHHMMSS form back; None for any other shape. */
  function ReadBasic(s: string): Option<DateTime> {
    if |s| == 15 && s[8] == 'T' && AllDigits(s[..8]) && AllDigits(s[9..]) then
      var date := s[..8];
      var time := s[9..];
      Some(DateTime(
        ReadDigits(date[..4]), ReadDigits(date[4..6]), ReadDigits(date[6..]),
        ReadDigits(time[..2]), ReadDigits(time[2..4]), ReadDigits(time[4..])))
    else
      None
  }

  /** The basic form loses nothing: reading it back gives the same datetime. */
  lemma ReadBasicFormat(d: DateTime)
    requires d.Valid()
    ensures ReadBasic(BasicFormat(d)) == Some(d)
  {
    var s := BasicFormat(d);
    var date, time := DatePart(d), TimePart(d);
    SplitThree(date, "T", time);
    assert s[..8] == date && s[9..] == time;
    SplitThree(Pad(d.year, 4), Pad(d.month, 2), Pad(d.day, 2));
    SplitThree(Pad(d.hour, 2), Pad(d.minute, 2), Pad(d.second, 2));
    ReadPad(d.year, 4);
    ReadPad(d.month, 2);
    ReadPad(d.day, 2);
    ReadPad(d.hour, 2);
    ReadPad(d.minute, 2);
    ReadPad(d.second, 2);
  }

  /** Distinct datetimes have distinct basic forms. */
  lemma BasicFormatInjective(a: DateTime, b: DateTime)
    requires a.Valid() && b.Valid() && BasicFormat(a) == BasicFormat(b)
    ensures a == b
  {
    ReadBasicFormat(a);
    ReadBasicFormat(b);
  }

  /** Where the fields sit in an invite. */
  const StartAt := |Head|
  const EndAt := StartAt + 15 + |EndLabel|
  const TitleAt := EndAt + 15 + |TitleLabel|

  /** generate_ics: the invite text for a slot and a title. */
  function GenerateIcs(start: DateTime, end: DateTime, title: string): (r: string)
    requires start.Valid() && end.Valid()
    ensures |r| == TitleAt + |title| + |Tail|
    ensures r[..|BeginCalendar|] == BeginCalendar
    ensures r[|r| - |EndCalendar|..] == EndCalendar
  {
    var r := Head + BasicFormat(start) + EndLabel + BasicFormat(end) + TitleLabel + title + Tail;
    assert r[..|BeginCalendar|] == BeginCalendar by {
      assert r[..|Head|] == Head;
      assert Head[..|BeginCalendar|] == BeginCalendar;
    }
    assert r[|r| - |EndCalendar|..] == EndCalendar by {
      assert r[|r| - |Tail|..] == Tail;
    }
    r
  }

  /** Where each field of the invite sits: the start after `DTSTART:`, the end
      after `DTEND:`, the title after `SUMMARY:`, each property on its own line. */
  lemma GenerateIcsFields(start: DateTime, end: DateTime, title: string)
    requires start.Valid() && end.Valid()
    ensures var r := GenerateIcs(start, end, title);
      && r[..StartAt] == Head && r[StartAt..StartAt + 15] == BasicFormat(start)
      && r[StartAt + 15..EndAt] == EndLabel && r[EndAt..EndAt + 15] == BasicFormat(end)
      && r[EndAt + 15..TitleAt] == TitleLabel && r[TitleAt..TitleAt + |title|] == title
      && r[TitleAt + |title|..] == Tail
  {
    var r := GenerateIcs(start, end, title);
    var upToEnd := Head + BasicFormat(start) + EndLabel;
    var upToTitle := upToEnd + BasicFormat(end) + TitleLabel;
    assert r == upToTitle + title + Tail;
    SplitThree(upToTitle, title, Tail);
    SplitThree(upToEnd, BasicFormat(end), TitleLabel);
    SplitThree(Head, BasicFormat(start), EndLabel);
    assert r[..StartAt] == upToEnd[..StartAt] by {
      assert r[..EndAt] == upToEnd;
    }
    assert r[StartAt..EndAt] == upToEnd[StartAt..] by {
      assert r[..EndAt] == upToEnd;
    }
    assert r[EndAt..TitleAt] == upToTitle[EndAt..];
  }

  /** Reads an invite laid out as generate_ics writes it; None for any other text. */
  function ReadIcs(text: string): Option<Invite> {
    if |text| >= TitleAt + |Tail|
      && text[..StartAt] == Head
      && text[StartAt + 15..EndAt] == EndLabel
      && text[EndAt + 15..TitleAt] == TitleLabel
      && text[|text| - |Tail|..] == Tail
    then
      match (ReadBasic(text[StartAt..StartAt + 15]), ReadBasic(text[EndAt..EndAt + 15]))
      case (Some(s), Some(e)) => Some(Invite(s, e, text[TitleAt..|text| - |Tail|]))
      case _ => None
    else
      None
  }

  /** The invite carries exactly its start, end and title: reading it back
      recovers all three, whatever the title contains. */
  lemma ReadGenerateIcs(start: DateTime, end: DateTime, title: string)
    requires start.Valid() && end.Valid()
    ensures ReadIcs(GenerateIcs(start, end, title)) == Some(Invite(start, end, title))
  {
    GenerateIcsFields(start, end, title);
    ReadBasicFormat(start);
    ReadBasicFormat(end);
  }

  /** generate_ics called without a title. */
  function GenerateDefaultIcs(start: DateTime, end: DateTime): (r: string)
    requires start.Valid() && end.Valid()
    ensures ReadIcs(r) == Some(Invite(start, end, DefaultTitle))
  {
    ReadGenerateIcs(start, end, DefaultTitle);
    GenerateIcs(start, end, DefaultTitle)
  }
}
