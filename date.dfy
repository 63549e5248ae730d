/**
 * The normalised date of a page and the calendar event built from a date entry:
 * `Date::try_from(NotionDate)` and `DateEntry::as_event`.
 */
module Dates {
  import opened Wrappers
  import opened Chrono
  import Notion

  /** The error chrono reports when neither text form fits (its kinds are not distinguished here). */
  datatype ParseError = ParseError

  /**
   * A page's date: the start date, and a start time when the start was a timestamp;
   * an end date and end time when the page has an end.
   */
  datatype Date = Date(
    startDate: NaiveDate,
    startTime: Option<NaiveTime>,
    endDate: Option<NaiveDate>,
    endTime: Option<NaiveTime>)

  /** `Date::default()`: chrono's default date, 1970-01-01, and nothing else set. */
  const DefaultDate := Date(NaiveDate(1970, 1, 1), None, None, None)

  /**
   * What `Date::try_from` yields. The start is read as an RFC 3339 date-time, else as a
   * bare `YYYY-MM-DD` date, else the conversion fails. A present end is read as a
   * date-time; when that fails, the fallback reads the START string again as a bare
   * date, so the end text is never read as a bare date.
   */
  function DateFrom(value: Notion.NotionDate): (r: Result<Date, ParseError>)
    // the start
    ensures r.Ok? ==> (r.value.startTime.Some? <==> ParseDateTime(value.start).Some?)
    ensures r.Ok? && ParseDateTime(value.start).Some? ==>
              r.value.startDate == ParseDateTime(value.start).value.0
              && r.value.startTime == Some(ParseDateTime(value.start).value.1)
    ensures r.Ok? && ParseDateTime(value.start).None? ==> Some(r.value.startDate) == ParseFullDate(value.start)
    ensures ParseDateTime(value.start).None? && ParseFullDate(value.start).None? ==> r.Err?
    // no end
    ensures value.end.None? ==> (r.Ok? <==> ParseDateTime(value.start).Some? || ParseFullDate(value.start).Some?)
    ensures value.end.None? && r.Ok? ==> r.value.endDate.None? && r.value.endTime.None?
    // an end that is a date-time
    ensures value.end.Some? && ParseDateTime(value.end.value).Some? ==>
              (r.Ok? <==> ParseDateTime(value.start).Some? || ParseFullDate(value.start).Some?)
    ensures value.end.Some? && ParseDateTime(value.end.value).Some? && r.Ok? ==>
              r.value.endDate == Some(ParseDateTime(value.end.value).value.0)
              && r.value.endTime == Some(ParseDateTime(value.end.value).value.1)
    // an end that is not a date-time: the start decides
    ensures value.end.Some? && ParseDateTime(value.end.value).None? ==>
              (r.Ok? <==> ParseFullDate(value.start).Some?)
    ensures value.end.Some? && ParseDateTime(value.end.value).None? && r.Ok? ==>
              r.value.endDate == ParseFullDate(value.start) && r.value.endTime.None?
    // in every result
    ensures r.Ok? && r.value.endTime.Some? ==> r.value.endDate.Some?
  {
    var startStamp := ParseDateTime(value.start);
    var startDay := ParseFullDate(value.start);
    if startStamp.None? && startDay.None? then
      Err(ParseError)
    else
      var startDate := if startStamp.Some? then startStamp.value.0 else startDay.value;
      var startTime := if startStamp.Some? then Some(startStamp.value.1) else None;
      match value.end
      case None => Ok(Date(startDate, startTime, None, None))
      case Some(end) =>
        match ParseDateTime(end)
        case Some((endDate, endTime)) => Ok(Date(startDate, startTime, Some(endDate), Some(endTime)))
        case None =>
          if startDay.None? then Err(ParseError) else Ok(Date(startDate, startTime, Some(startDay.value), None))
  }

  /** `Date::try_from`: fills in a default date field by field, leaving early on a parse error. */
  method TryFrom(value: Notion.NotionDate) returns (r: Result<Date, ParseError>)
    ensures r == DateFrom(value)
  {
    var date := DefaultDate;

    // start
    var start := ParseDateTime(value.start);
    if start.Some? {
      date := date.(startDate := start.value.0, startTime := Some(start.value.1));
    } else {
      var startDate := ParseFullDate(value.start);
      if startDate.None? {
        return Err(ParseError);
      }
      date := date.(startDate := startDate.value, startTime := None);
    }

    // end (optional)
    if value.end.Some? {
      var end := ParseDateTime(value.end.value);
      if end.Some? {
        date := date.(endDate := Some(end.value.0), endTime := Some(end.value.1));
      } else {
        var endDate := ParseFullDate(value.start);
        if endDate.None? {
          return Err(ParseError);
        }
        date := date.(endDate := Some(endDate.value), endTime := None);
      }
    }

    return Ok(date);
  }

  /** A bare `YYYY-MM-DD` start with no end gives that whole day and nothing else. */
  lemma BareDateStart(d: NaiveDate, timezone: Option<string>)
    requires Writable(d)
    ensures DateFrom(Notion.NotionDate(FormatDate(d), None, timezone)) == Ok(Date(d, None, None, None))
  {
    ParseFormatDate(d);
  }

  /** A date-time start with no end gives its wall-clock date and time, whatever its offset. */
  lemma TimestampStart(d: NaiveDate, t: NaiveTime, offset: string, timezone: Option<string>)
    requires Writable(d) && ValidTime(t) && ValidOffset(offset)
    ensures DateFrom(Notion.NotionDate(FormatDateTime(d, t, offset), None, timezone)) == Ok(Date(d, Some(t), None, None))
  {
    ParseFormatDateTime(d, t, offset);
  }

  /**
   * With a bare-date start, an end that is no date-time is accepted whatever it says
   * (even unparsable text), and the end date is the start date.
   */
  lemma BareStartAnyEnd(d: NaiveDate, end: string, timezone: Option<string>)
    requires Writable(d) && ParseDateTime(end).None?
    ensures DateFrom(Notion.NotionDate(FormatDate(d), Some(end), timezone)) == Ok(Date(d, None, Some(d), None))
  {
    ParseFormatDate(d);
  }

  /** With a date-time start, a bare-date end makes the whole conversion fail, valid as that end is. */
  lemma TimestampStartBareEndFails(d: NaiveDate, t: NaiveTime, offset: string, e: NaiveDate, timezone: Option<string>)
    requires Writable(d) && ValidTime(t) && ValidOffset(offset) && Writable(e)
    ensures DateFrom(Notion.NotionDate(FormatDateTime(d, t, offset), Some(FormatDate(e)), timezone)).Err?
  {
    ParseFormatDateTime(d, t, offset);
  }

  // ---------------------------------------------------------------------------
  // Entries and events

  /** A page that has a date, ready to become an event; `additional` lists the labelled extra values. */
  datatype DateEntry = DateEntry(
    id: string,
    emoji: Option<string>,
    title: string,
    date: Date,
    url: string,
    additional: seq<(string, string)>)
  {
    /** `DateEntry::as_event`: the summary, the description built line by line, and the two bounds. */
    method AsEvent() returns (event: Event)
      ensures event == EventOf(this)
    {
      // Summary
      var summary := if this.emoji.Some? then this.emoji.value + " " + this.title else this.title;

      // Description text
      var description := "";
      for i := 0 to |this.additional|
        invariant description == Lines(this.additional[..i])
      {
        assert this.additional[..i + 1][..i] == this.additional[..i];
        var (name, value) := this.additional[i];
        description := description + name + ": " + value + "\n";
      }
      assert this.additional[..|this.additional|] == this.additional;
      description := description + "---\n" + this.url;

      // Starts
      var starts := if this.date.startTime.Some? then DateTime(this.date.startDate, this.date.startTime.value)
                    else DateOnly(this.date.startDate);

      // Ends
      var ends := starts;
      if this.date.endDate.Some? {
        if this.date.endTime.Some? {
          ends := DateTime(this.date.endDate.value, this.date.endTime.value);
        } else {
          ends := DateOnly(this.date.endDate.value);
        }
      }

      event := Event(starts, ends, summary, description);
    }
  }

  /** An event bound: a whole day (iCalendar DATE) or a floating date and time (iCalendar DATE-TIME). */
  datatype DatePerhapsTime = DateOnly(date: NaiveDate) | DateTime(date: NaiveDate, time: NaiveTime)

  /** The parts of a calendar event the program sets. */
  datatype Event = Event(starts: DatePerhapsTime, ends: DatePerhapsTime, summary: string, description: string)

  /** The summary is the title, behind the emoji and a space when the entry has one. */
  function Summary(entry: DateEntry): (s: string)
    ensures entry.emoji.None? ==> s == entry.title
    ensures entry.emoji.Some? ==> s == entry.emoji.value + " " + entry.title
  {
    if entry.emoji.Some? then entry.emoji.value + " " + entry.title else entry.title
  }

  /** One description line: `name: value` and a line break. */
  function Line(pair: (string, string)): string {
    pair.0 + ": " + pair.1 + "\n"
  }

  /** The description lines of the pairs, in order. */
  function Lines(pairs: seq<(string, string)>): string
    decreases |pairs|
  {
    if |pairs| == 0 then "" else Lines(pairs[..|pairs| - 1]) + Line(pairs[|pairs| - 1])
  }

  /** The description: the lines of the extra values, then a `---` line and the page URL. */
  function Description(entry: DateEntry): (d: string)
    ensures |d| >= 4 + |entry.url|
    ensures d[|d| - |entry.url| - 4..] == "---\n" + entry.url
  {
    Lines(entry.additional) + "---\n" + entry.url
  }

  lemma {:induction false} LinesAppend(a: seq<(string, string)>, b: seq<(string, string)>)
    ensures Lines(a + b) == Lines(a) + Lines(b)
    decreases |b|
  {
    if |b| == 0 {
      assert a + b == a;
    } else {
      var ab, n := a + b, |b| - 1;
      assert ab[..|ab| - 1] == a + b[..n];
      assert ab[|ab| - 1] == b[n];
      calc {
        Lines(ab);
        Lines(a + b[..n]) + Line(b[n]);
        { LinesAppend(a, b[..n]); }
        (Lines(a) + Lines(b[..n])) + Line(b[n]);
        Lines(a) + (Lines(b[..n]) + Line(b[n]));
        Lines(a) + Lines(b);
      }
    }
  }

  /** The number of times `c` occurs in `s`. */
  function Occurrences(s: string, c: char): nat
    decreases |s|
  {
    if |s| == 0 then 0 else Occurrences(s[..|s| - 1], c) + (if s[|s| - 1] == c then 1 else 0)
  }

  lemma {:induction false} OccurrencesAppend(a: string, b: string, c: char)
    ensures Occurrences(a + b, c) == Occurrences(a, c) + Occurrences(b, c)
    decreases |b|
  {
    if |b| == 0 {
      assert a + b == a;
    } else {
      assert (a + b)[..|a + b| - 1] == a + b[..|b| - 1];
      OccurrencesAppend(a, b[..|b| - 1], c);
    }
  }

  /** Neither part of the pair holds a line break. */
  predicate SingleLine(pair: (string, string)) {
    Occurrences(pair.0, '\n') == 0 && Occurrences(pair.1, '\n') == 0
  }

  /** Line breaks separate the description into one line per pair plus the `---` line, and the URL follows. */
  lemma {:induction false} DescriptionLineCount(entry: DateEntry)
    requires forall i :: 0 <= i < |entry.additional| ==> SingleLine(entry.additional[i])
    requires Occurrences(entry.url, '\n') == 0
    ensures Occurrences(Description(entry), '\n') == |entry.additional| + 1
  {
    var pairs := entry.additional;
    forall k | 0 <= k <= |pairs| ensures Occurrences(Lines(pairs[..k]), '\n') == k {
      LinesLineCount(pairs, k);
    }
    assert pairs[..|pairs|] == pairs;
    OccurrencesAppend(Lines(pairs) + "---\n", entry.url, '\n');
    OccurrencesAppend(Lines(pairs), "---\n", '\n');
    assert "---\n"[..3] == "---" && "---"[..2] == "--" && "--"[..1] == "-";
    assert Occurrences("---\n", '\n') == 1;
    assert Description(entry) == (Lines(pairs) + "---\n") + entry.url;
  }

  lemma {:induction false} LinesLineCount(pairs: seq<(string, string)>, k: nat)
    requires k <= |pairs|
    requires forall i :: 0 <= i < |pairs| ==> SingleLine(pairs[i])
    ensures Occurrences(Lines(pairs[..k]), '\n') == k
  {
    if k > 0 {
      LinesLineCount(pairs, k - 1);
      var p := pairs[k - 1];
      assert pairs[..k][..k - 1] == pairs[..k - 1];
      OccurrencesAppend(Lines(pairs[..k - 1]), Line(p), '\n');
      OccurrencesAppend(p.0 + ": " + p.1, "\n", '\n');
      OccurrencesAppend(p.0 + ": ", p.1, '\n');
      OccurrencesAppend(p.0, ": ", '\n');
    }
  }

  /** The start bound: a date-time exactly when the date has a start time, otherwise the whole start day. */
  function StartBound(date: Date): (b: DatePerhapsTime)
    ensures b.date == date.startDate
    ensures b.DateTime? <==> date.startTime.Some?
    ensures b.DateTime? ==> b.time == date.startTime.value
  {
    if date.startTime.Some? then DateTime(date.startDate, date.startTime.value) else DateOnly(date.startDate)
  }

  /**
   * The end bound: with an end date, a date-time when there is also an end time and the
   * whole end day otherwise; without an end date, the start bound itself (an end time
   * alone is ignored, and no default duration is added).
   */
  function EndBound(date: Date): (b: DatePerhapsTime)
    ensures date.endDate.Some? ==> b.date == date.endDate.value && (b.DateTime? <==> date.endTime.Some?)
    ensures date.endDate.Some? && b.DateTime? ==> b.time == date.endTime.value
    ensures date.endDate.None? ==> b == StartBound(date)
  {
    match date.endDate
    case Some(endDate) =>
      if date.endTime.Some? then DateTime(endDate, date.endTime.value) else DateOnly(endDate)
    case None => StartBound(date)
  }

  /** The event an entry stands for. */
  function EventOf(entry: DateEntry): Event {
    Event(StartBound(entry.date), EndBound(entry.date), Summary(entry), Description(entry))
  }

  /** A page dated by a timestamp alone becomes an event that starts and ends at that instant. */
  lemma TimedEventWithoutEnd(d: NaiveDate, t: NaiveTime, offset: string, timezone: Option<string>,
                             id: string, title: string, url: string, additional: seq<(string, string)>)
    requires Writable(d) && ValidTime(t) && ValidOffset(offset)
    ensures var r := DateFrom(Notion.NotionDate(FormatDateTime(d, t, offset), None, timezone));
            && r.Ok?
            && EventOf(DateEntry(id, None, title, r.value, url, additional)).starts == DateTime(d, t)
            && EventOf(DateEntry(id, None, title, r.value, url, additional)).ends == DateTime(d, t)
  {
    TimestampStart(d, t, offset, timezone);
  }

  /** A page dated by a bare day alone becomes a whole-day event whose end bound is that same day. */
  lemma AllDayEventWithoutEnd(d: NaiveDate, timezone: Option<string>,
                              id: string, title: string, url: string, additional: seq<(string, string)>)
    requires Writable(d)
    ensures var r := DateFrom(Notion.NotionDate(FormatDate(d), None, timezone));
            && r.Ok?
            && EventOf(DateEntry(id, None, title, r.value, url, additional)).starts == DateOnly(d)
            && EventOf(DateEntry(id, None, title, r.value, url, additional)).ends == DateOnly(d)
  {
    BareDateStart(d, timezone);
  }
}
