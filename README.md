# notion2ics core, modelled in Dafny

notion2ics reads the pages of a Notion database and writes them as events of an
iCalendar (`.ics`) file. This project models the logic between the Notion answer and
the calendar. It does not model the HTTP calls, the command line or the file writing.

- **Date normalisation** (`chrono.dfy`, `date.dfy`): `Date::try_from(NotionDate)`.
  - The start is read as an RFC 3339 `date-time` (section 5.6 of RFC 3339). The offset is checked and then dropped, so the wall-clock date and time are kept.
  - If that fails, the start is read as a bare `full-date` `YYYY-MM-DD`.
  - If the end is present, it is read as a `date-time`. As the code is written (`src/date.rs:94`), the fallback for the end re-reads the *start* string as a bare date.
    - `Dates.BareStartAnyEnd` and `Dates.TimestampStartBareEndFails` state what this means.
    - The code's behaviour is modelled, not the "read the end" that was presumably meant.
  - The two text forms are modelled by their grammar and Gregorian validity. Writing functions go with them, and round-trip lemmas connect parsing and writing.
- **Event construction** (`date.dfy`): `DateEntry::as_event`.
  - The summary, the description and the two bounds are defined as functions (`EventOf`).
  - Each bound is a whole day or a date and time.
  - The method `AsEvent` builds the event the way the code does: the description is built in a loop.
- **Page title** (`notion.dfy`): `NotionPage::title`. It is a loop over the page's properties, specified by `PageTitle`.
- **Page processing** (`processing.dfy`): the per-page and per-property loops of `notion_query_database`, and the event loop of `create_ics`.
  - The scan of a page's properties is specified property by property (`Step`, `ScanFrom`).
  - The methods `ScanProperty`, `ProcessPage`, `QueryDatabase` and `CreateIcs` are proved against those specifications.
  - Fetching a related page is a parameter of the `Context` (`fetchPage: string -> Option<NotionPage>`). Rendering a number as text is another (`formatNumber`).
- **Ordered map** (`sorted_map.dfy`): the `BTreeMap<String, String>` that gathers a page's extra values.
  - It is modelled as its list of entries in strictly ascending key order.
  - `Insert` is specified against the map the list stands for.

The code behaves as follows, and the model keeps it:
- An end that is not a date-time falls back to re-reading the start string as a bare date (`src/date.rs:93-95`).
- Without an end date, the end bound is the start bound (`src/date.rs:50-53`).
- The event gets no identifier from the entry: its id is never passed to the event (`src/date.rs:56-61`).
- The description pairs come out in ascending key order, because they are gathered in a `BTreeMap` (`src/main.rs:95`, `src/main.rs:175`).
- `src/main.rs:189-196` builds a `DateEntry` that does not match its declaration in `src/date.rs:7-15`:
  - main.rs passes a `last_edited` field, and the declaration has none;
  - main.rs passes a `BTreeMap`, and the declaration has a `Vec` of pairs;
  - main.rs gives no `emoji`.

  The model follows the declaration:
  - `emoji` is `None`, because the page icon is already part of the title (`Processing.EntrySummary`);
  - `additional` is the map's entries in key order.

## Model

| member | source | states |
|---|---|---|
| Notion.SelectTypeOf | src/notion.rs:124-135 | a standard status id gives the status with exactly that id, and every other id gives `Unknown` |
| Notion.NotionPage.Title | src/notion.rs:25-46 | the loop's result is `PageTitle`: the base title of the properties, behind the icon's emoji and a space when the icon has an emoji |
| Notion.BaseTitleAppend | src/notion.rs:28-38 | appending properties keeps the title unless one of them sets it, and then only the appended ones decide |
| Notion.LastTitleWins | src/notion.rs:28-38 | the title is the first fragment's plain text of the last Title property with a fragment, whatever its fragment type |
| Notion.NoTitleIsEmpty | src/notion.rs:26-34 | without a Title property that has a fragment, the base title is empty |
| Notion.OtherPropertiesIgnored | src/notion.rs:29-36 | a property that is not a Title with a fragment can be removed without changing the title |
| Chrono.ParseFullDate | src/date.rs:84 | an accepted `full-date` is exactly ten characters and names a valid Gregorian date with a four-digit year |
| Chrono.ParsePartialTime | src/date.rs:80-82 | an accepted time has hour 0-23, minute 0-59, second 0-60 and fewer than 10^9 nanoseconds |
| Chrono.FractionNanos | src/date.rs:80-82 | a fraction of a second becomes fewer than 10^9 nanoseconds |
| Chrono.ParseDateTime | src/date.rs:80-82 | an accepted `date-time` has at least 20 characters and gives a valid date and a valid time |
| Chrono.DaysInMonth | src/date.rs:84 | months have 28 to 31 days, and 29 exactly for February of a leap year |
| Chrono.ParseFormatDate | src/date.rs:84 | every writable date parses back from its `full-date` text |
| Chrono.FormatParseDate | src/date.rs:84 | a string that parses as a `full-date` is exactly the text of the date it gives |
| Chrono.ParseFormatTime | src/date.rs:80-82 | every valid time parses back from its `partial-time` text |
| Chrono.FractionRoundTrip | src/date.rs:80-82 | nine fraction digits read back as the nanoseconds they were written from |
| Chrono.ParseFormatDateTime | src/date.rs:80-82 | a date and time written with any valid offset parse back to that date and time, so the offset never shifts them |
| Chrono.FormsAreDisjoint | src/date.rs:80-86 | no string is both a `full-date` and a `date-time`, so the two tries never compete |
| Dates.DateFrom | src/date.rs:76-100 | start: a date-time gives its date and time; otherwise a bare date gives the date and no time; otherwise error. No end: both end fields are absent. A date-time end gives its date and time. Any other end gives the start re-read as a bare date, or an error. An end time always comes with an end date |
| Dates.TryFrom | src/date.rs:73-101 | the field-by-field conversion with early error returns yields exactly `DateFrom` |
| Dates.BareDateStart | src/date.rs:83-86 | a bare-date start without an end gives that day, no time and no end |
| Dates.TimestampStart | src/date.rs:80-82 | a date-time start without an end gives its wall-clock date and time, for every offset |
| Dates.BareStartAnyEnd | src/date.rs:93-95 | with a bare-date start, an end that is not a date-time is accepted whatever it says, and the end date is the start date |
| Dates.TimestampStartBareEndFails | src/date.rs:93-95 | with a date-time start, a bare-date end makes the conversion fail, even a valid one |
| Dates.DateEntry.AsEvent | src/date.rs:18-62 | the event built step by step, with the description loop, is `EventOf` the entry |
| Dates.Description | src/date.rs:26-31 | the description ends with `---`, a line break and the page URL |
| Dates.LinesAppend | src/date.rs:28-30 | the description lines of two runs of pairs are the lines of the first followed by those of the second |
| Dates.DescriptionLineCount | src/date.rs:26-31 | with no line breaks in names, values and URL, the description has one line break per pair plus one |
| Dates.StartBound | src/date.rs:34-40 | the start bound is on the start date, and is a date-time exactly when there is a start time, at that time |
| Dates.EndBound | src/date.rs:42-53 | with an end date, the end bound is on it, and is a date-time exactly when there is an end time. Without one, it is the start bound, and the end time is ignored |
| Dates.TimedEventWithoutEnd | src/date.rs:34-53 | a page dated by a timestamp alone starts and ends at that same date and time |
| Dates.AllDayEventWithoutEnd | src/date.rs:34-53 | a page dated by a bare day alone starts and ends on that whole day |
| SortedMap.Insert | src/main.rs:174-176 | inserting keeps the entries sorted. The map becomes the old map with the key set to the value, so an existing key is overwritten |
| SortedMap.SortedUnique | src/main.rs:95 | two sorted entry lists standing for the same map are equal, so the ordered map's contents fix its entry order |
| Processing.StatusPrefix | src/main.rs:149-154 | the prefix is empty exactly for a non-standard status |
| Processing.Joined | src/main.rs:110-144 | the joined text is empty exactly when there are no items, and otherwise ends with a space |
| Processing.JoinedAppend | src/main.rs:111-114 | joining two runs of items is joining each and concatenating |
| Processing.JoinedLength | src/main.rs:111-114 | each item adds its text and exactly one space, nothing else |
| Processing.JoinText | src/main.rs:111-114 | the text loop yields `Joined` of the items |
| Processing.Resolved | src/main.rs:156-170 | the label is unset or the relation label, and an unset label has an empty value. When no relation resolves, nothing is shown |
| Processing.LastResolvedWins | src/main.rs:157-169 | the last relation that resolves gives the relation label and its page's title |
| Processing.ResolveRelations | src/main.rs:156-170 | the relation loop yields `Resolved` of the relations |
| Processing.Display | src/main.rs:99-172 | per kind: Number gives its text, or that of zero when absent. Url gives its text, or empty. Rich text, multi-select and people give a non-empty value exactly when there is an item. Status gives its name. Kinds not shown give the unset label and an empty value. A non-empty value never has the unset label |
| Processing.ScanProperty | src/main.rs:102-172 | the match on a property's kind: a Date with a value replaces the date by its parse result, or by none when that fails. A Status replaces the title prefix. The label and value are `Display` |
| Processing.Step | src/main.rs:97-177 | one property's effect keeps the description entries sorted |
| Processing.ScanFrom | src/main.rs:97-177 | the scan keeps the description entries sorted |
| Processing.ScanAppend | src/main.rs:97-177 | scanning two runs of properties is scanning the first, then the second from where the first ended |
| Processing.DateUnchanged | src/main.rs:103-105 | properties without a date value leave the date unchanged |
| Processing.LastDateDecides | src/main.rs:103-105 | the last Date property with a value decides the date: its parse result, or none when the parse fails |
| Processing.PrefixUnchanged | src/main.rs:145-155 | properties other than Status leave the title prefix unchanged |
| Processing.LastStatusDecides | src/main.rs:145-155 | the last Status property decides the title prefix |
| Processing.StepKey | src/main.rs:174-176 | one property adds its key, or leaves each key's presence and value as they were |
| Processing.AdditionalKeys | src/main.rs:174-176 | a key is in the description map exactly when some property adds a non-empty value under `label name` |
| Processing.LastValueWins | src/main.rs:174-176 | a key holds the value of the last property that adds under it |
| Processing.StatusTitle | src/main.rs:145-182 | the last Status property decides the entry title: a standard status gives `(glyph) ` before the page title, and a non-standard one leaves the page title unchanged |
| Processing.NoStatusTitle | src/main.rs:179-182 | without a Status property, the entry title is the page title |
| Processing.EntrySummary | src/date.rs:20-24 | the event of a page's entry is summarised by the page's final title, so the icon's emoji appears once, from the page title |
| Processing.PageEntry | src/main.rs:179-198 | a page gives an entry exactly when its scan ends with a date. The entry has the page id and URL, no emoji, that date, the final title and sorted extra values |
| Processing.PageWithoutDateDropped | src/main.rs:184-198 | a page none of whose Date properties has a value gives no entry |
| Processing.ProcessPage | src/main.rs:90-199 | the loop over one page's properties yields `PageEntry` of the page |
| Processing.Entries | src/main.rs:89-201 | there are at most as many entries as pages, and each entry is the entry of some page |
| Processing.EntriesAppend | src/main.rs:89-201 | entries keep page order: the entries of two runs of pages are those of the first followed by those of the second |
| Processing.QueryDatabase | src/main.rs:89-201 | the loop over the pages yields `Entries` of the pages |
| Processing.Calendar.constructor | src/main.rs:218 | a new calendar has its name and no events |
| Processing.Calendar.Push | src/main.rs:222 | pushing appends the event and keeps the name |
| Processing.CreateIcs | src/main.rs:217-223 | the calendar is named `notion2ics` and holds exactly one event per entry, in entry order, each the entry's `EventOf` |

## Left out

- HTTP and process plumbing are not modelled:
  - the client, the command line and the polling loop;
  - the database query and `fetch_notion_page`;
  - writing the `.ics` file.

  Fetching a related page is the `fetchPage` parameter. Its `None` stands for a page that fails to decode, which the relation loop skips. A transport failure panics in `fetch_notion_page` and ends the process; that panic is left out. The progress messages printed while fetching are left out.
- JSON decoding is not modelled. The datatypes are declared directly.
  - The envelope of the query answer and the flattening wrapper around each property value are not modelled.
  - Property kinds that are never looked into keep their raw JSON as an opaque string.
- The page's property map is a sequence in the map's iteration order. The code does not fix that order, so every lemma about it holds for any order.
- The `icalendar` crate's side of the event is not modelled: its text form, and the UID and DTSTAMP it generates from randomness and the clock.
- `last_edited_time` and its parse (which panics on bad input) are left out. The entry declared in `src/date.rs` has no field for it.
- `NotionDate.timezone` is carried but never read.
- Processing.Display: a Number's text is the opaque `formatNumber` rendering of the floating-point value, not Rust's `f64` formatting. So that an absent Number still adds a pair rests on that text being non-empty.
- Chrono.ParseDateTime: models the grammar of section 5.6 of RFC 3339, not chrono's exact leniency.
  - A leap second is kept as second 60 rather than folded into the nanoseconds.
  - Only the first nine fraction digits count.
  - The offset's hour and minute ranges are checked, but the offset is not otherwise applied.
- Chrono.ParseFullDate: models a strict `YYYY-MM-DD`, with no signs, no padding variants and no years beyond four digits.
- Dates.ParseError: one error value stands for every kind of chrono parse error.
- The status glyphs and property labels are constant strings, written as the Unicode characters they are meant to be.
