/**
 * Turning the pages of a database query into date entries, and date entries into a
 * calendar: the per-page loop of `notion_query_database` and the event loop of
 * `create_ics`. Fetching a related page is the `fetchPage` parameter of the
 * context; the HTTP calls, the query itself and file writing are not modelled.
 */
module Processing {
  import opened Wrappers
  import opened Notion
  import Dates
  import SortedMap

  /**
   * What the processing takes from outside: fetching a page by id (failing with
   * `None`), and Rust's rendering of a floating-point number as text.
   */
  datatype Context = Context(fetchPage: string -> Option<NotionPage>, formatNumber: real -> string)

  // ---------------------------------------------------------------------------
  // Labels and status glyphs

  /** The label a property starts with before its kind is known. */
  const UnsetLabel: string := "\U{2753}\U{FE0F}"
  const NumberLabel: string := "\U{1F522}"
  const RichTextLabel: string := "\U{1F1F9}"
  const UrlLabel: string := "\U{2139}\U{FE0F}"
  const MultiSelectLabel: string := "\U{27A1}\U{FE0F}"
  const SelectLabel: string := "\U{25B6}\U{FE0F}"
  const PeopleLabel: string := "\U{1F6B9}"
  const StatusLabel: string := "\U{23FA}\U{FE0F}"
  const RelationLabel: string := "\U{2197}\U{FE0F}"

  const DoneGlyph: string := "\U{2705}"
  const InProgressGlyph: string := "\U{1F7E7}"
  const NotStartedGlyph: string := "\U{1F532}"

  /** The glyph put before the title of a page with this status; none for a non-standard status. */
  function StatusPrefix(id: NotionSelectType): (p: string)
    ensures p == "" <==> id == NotionSelectType.Unknown
  {
    match id
    case Done => DoneGlyph
    case InProgress => InProgressGlyph
    case NotStarted => NotStartedGlyph
    case _ => ""
  }

  // ---------------------------------------------------------------------------
  // Property values as text

  /** The items' texts, each followed by exactly one space. */
  function Joined<T>(items: seq<T>, text: T -> string): (r: string)
    ensures |r| == 0 <==> |items| == 0
    ensures |items| > 0 ==> r[|r| - 1] == ' '
    decreases |items|
  {
    if |items| == 0 then "" else Joined(items[..|items| - 1], text) + text(items[|items| - 1]) + " "
  }

  lemma {:induction false} JoinedAppend<T>(a: seq<T>, b: seq<T>, text: T -> string)
    ensures Joined(a + b, text) == Joined(a, text) + Joined(b, text)
    decreases |b|
  {
    if |b| == 0 {
      assert a + b == a;
    } else {
      var ab, n := a + b, |b| - 1;
      assert ab[..|ab| - 1] == a + b[..n];
      assert ab[|ab| - 1] == b[n];
      calc {
        Joined(ab, text);
        Joined(a + b[..n], text) + text(b[n]) + " ";
        { JoinedAppend(a, b[..n], text); }
        Joined(a, text) + Joined(b[..n], text) + text(b[n]) + " ";
        Joined(a, text) + (Joined(b[..n], text) + text(b[n]) + " ");
        Joined(a, text) + Joined(b, text);
      }
    }
  }

  /** Each item contributes its text and one space, and nothing else. */
  lemma {:induction false} JoinedLength<T>(items: seq<T>, text: T -> string)
    ensures |Joined(items, text)| == |items| + TextLength(items, text)
    decreases |items|
  {
    if |items| > 0 {
      JoinedLength(items[..|items| - 1], text);
    }
  }

  function TextLength<T>(items: seq<T>, text: T -> string): nat
    decreases |items|
  {
    if |items| == 0 then 0 else TextLength(items[..|items| - 1], text) + |text(items[|items| - 1])|
  }

  function PlainText(t: NotionText): string {
    t.plainText
  }

  function OptionName(option: NotionSelect): string {
    option.name
  }

  /** A person is shown by name, or as `NoName` when the name is missing. */
  function PersonName(person: NotionPerson): string {
    person.name.GetOr("NoName")
  }

  /**
   * The property kinds that are shown in the description: every other kind (Date, Title,
   * a Select with no option, and the kinds that are never looked into) shows nothing.
   */
  predicate Shown(value: NotionPropertyValue) {
    || value.Number? || value.RichText? || value.Url? || value.MultiSelect?
    || (value.Select? && value.select.Some?) || value.People? || value.Status? || value.Relation?
  }

  /**
   * The label and value of a Relation property: the relations are fetched in order, and
   * each page fetched replaces the value with its title; failed fetches are skipped.
   */
  function Resolved(relations: seq<NotionRelation>, ctx: Context): (r: (string, string))
    ensures r.0 == UnsetLabel || r.0 == RelationLabel
    ensures r.0 == UnsetLabel ==> r.1 == ""
    ensures (forall i :: 0 <= i < |relations| ==> ctx.fetchPage(relations[i].id).None?) ==> r == (UnsetLabel, "")
    decreases |relations|
  {
    if |relations| == 0 then
      (UnsetLabel, "")
    else
      match ctx.fetchPage(relations[|relations| - 1].id)
      case Some(page) => (RelationLabel, PageTitle(page))
      case None => Resolved(relations[..|relations| - 1], ctx)
  }

  /** The last relation that resolves decides the value; nothing fetched after it failed to resolve. */
  lemma {:induction false} LastResolvedWins(a: seq<NotionRelation>, rel: NotionRelation, b: seq<NotionRelation>, ctx: Context)
    requires ctx.fetchPage(rel.id).Some?
    requires forall i :: 0 <= i < |b| ==> ctx.fetchPage(b[i].id).None?
    ensures Resolved(a + [rel] + b, ctx) == (RelationLabel, PageTitle(ctx.fetchPage(rel.id).value))
    decreases |b|
  {
    var all := a + [rel] + b;
    if |b| > 0 {
      assert all[..|all| - 1] == a + [rel] + b[..|b| - 1];
      LastResolvedWins(a, rel, b[..|b| - 1], ctx);
    } else {
      assert all[..|all| - 1] == a;
    }
  }

  /**
   * The label and value a property contributes (`prop_emoji`, `prop_value`); an empty
   * value means it contributes nothing.
   */
  function Display(value: NotionPropertyValue, ctx: Context): (r: (string, string))
    ensures r.1 != "" ==> r.0 != UnsetLabel
    ensures !Shown(value) ==> r == (UnsetLabel, "")
    ensures value.Number? ==> r == (NumberLabel, ctx.formatNumber(value.number.GetOr(0.0)))
    ensures value.Url? ==> r == (UrlLabel, value.url.GetOr(""))
    ensures value.RichText? ==> (r.1 != "" <==> |value.richText| > 0)
    ensures value.MultiSelect? ==> (r.1 != "" <==> |value.multiSelect| > 0)
    ensures value.People? ==> (r.1 != "" <==> |value.people| > 0)
    ensures value.Status? ==> r == (StatusLabel, value.status.name)
  {
    match value
    case Number(n) => (NumberLabel, ctx.formatNumber(n.GetOr(0.0)))
    case RichText(texts) => (RichTextLabel, Joined(texts, PlainText))
    case Url(u) => (UrlLabel, u.GetOr(""))
    case MultiSelect(options) => (MultiSelectLabel, Joined(options, OptionName))
    case Select(Some(option)) => (SelectLabel, option.name)
    case People(people) => (PeopleLabel, Joined(people, PersonName))
    case Status(status) => (StatusLabel, status.name)
    case Relation(relations) => Resolved(relations, ctx)
    case _ => (UnsetLabel, "")
  }

  // ---------------------------------------------------------------------------
  // Scanning a page's properties

  /** What the scan of a page's properties has gathered so far. */
  datatype Scan = Scan(date: Option<Dates.Date>, titlePrefix: string, additional: SortedMap.Entries)

  const Initial: Scan := Scan(None, "", [])

  /** The property carries a date (a Date property with a value). */
  predicate SetsDate(p: Property) {
    p.1.Date? && p.1.date.Some?
  }

  /** The property adds a labelled value to the description. */
  predicate Adds(p: Property, ctx: Context) {
    Display(p.1, ctx).1 != ""
  }

  /** The description key of a property: its label, a space, and its name. */
  function Key(p: Property, ctx: Context): string {
    Display(p.1, ctx).0 + " " + p.0
  }

  /** The effect of one property on the scan. */
  function Step(s: Scan, p: Property, ctx: Context): (r: Scan)
    requires SortedMap.Sorted(s.additional)
    ensures SortedMap.Sorted(r.additional)
  {
    var date := if SetsDate(p) then Dates.DateFrom(p.1.date.value).ToOption() else s.date;
    var prefix := if p.1.Status? then StatusPrefix(p.1.status.id) else s.titlePrefix;
    var additional := if Adds(p, ctx) then SortedMap.Insert(s.additional, Key(p, ctx), Display(p.1, ctx).1)
                      else s.additional;
    Scan(date, prefix, additional)
  }

  /** The scan of `props`, in order, starting from `s`. */
  function ScanFrom(s: Scan, props: seq<Property>, ctx: Context): (r: Scan)
    requires SortedMap.Sorted(s.additional)
    ensures SortedMap.Sorted(r.additional)
    decreases |props|
  {
    if |props| == 0 then s else Step(ScanFrom(s, props[..|props| - 1], ctx), props[|props| - 1], ctx)
  }

  lemma {:induction false} ScanAppend(s: Scan, a: seq<Property>, b: seq<Property>, ctx: Context)
    requires SortedMap.Sorted(s.additional)
    ensures ScanFrom(s, a + b, ctx) == ScanFrom(ScanFrom(s, a, ctx), b, ctx)
    decreases |b|
  {
    if |b| == 0 {
      assert a + b == a;
    } else {
      assert (a + b)[..|a + b| - 1] == a + b[..|b| - 1];
      ScanAppend(s, a, b[..|b| - 1], ctx);
    }
  }

  /** Properties without a date value leave the date as it was. */
  lemma {:induction false} DateUnchanged(s: Scan, props: seq<Property>, ctx: Context)
    requires SortedMap.Sorted(s.additional)
    requires forall i :: 0 <= i < |props| ==> !SetsDate(props[i])
    ensures ScanFrom(s, props, ctx).date == s.date
    decreases |props|
  {
    if |props| > 0 {
      DateUnchanged(s, props[..|props| - 1], ctx);
    }
  }

  /** The last Date property with a value decides the date: its parse result, or none when that fails. */
  lemma LastDateDecides(a: seq<Property>, name: string, value: NotionDate, b: seq<Property>, ctx: Context)
    requires forall i :: 0 <= i < |b| ==> !SetsDate(b[i])
    ensures ScanFrom(Initial, a + [(name, Date(Some(value)))] + b, ctx).date == Dates.DateFrom(value).ToOption()
  {
    var head := a + [(name, Date(Some(value)))];
    ScanAppend(Initial, head, b, ctx);
    DateUnchanged(ScanFrom(Initial, head, ctx), b, ctx);
    assert head[..|head| - 1] == a;
  }

  /** Properties that are not Status properties leave the title prefix as it was. */
  lemma {:induction false} PrefixUnchanged(s: Scan, props: seq<Property>, ctx: Context)
    requires SortedMap.Sorted(s.additional)
    requires forall i :: 0 <= i < |props| ==> !props[i].1.Status?
    ensures ScanFrom(s, props, ctx).titlePrefix == s.titlePrefix
    decreases |props|
  {
    if |props| > 0 {
      PrefixUnchanged(s, props[..|props| - 1], ctx);
    }
  }

  /** The last Status property decides the title prefix. */
  lemma LastStatusDecides(a: seq<Property>, name: string, status: NotionSelect, b: seq<Property>, ctx: Context)
    requires forall i :: 0 <= i < |b| ==> !b[i].1.Status?
    ensures ScanFrom(Initial, a + [(name, Status(status))] + b, ctx).titlePrefix == StatusPrefix(status.id)
  {
    var head := a + [(name, Status(status))];
    ScanAppend(Initial, head, b, ctx);
    PrefixUnchanged(ScanFrom(Initial, head, ctx), b, ctx);
    assert head[..|head| - 1] == a;
  }

  /** One property adds its key to the description map, or leaves the key's presence and value as they were. */
  lemma StepKey(s: Scan, p: Property, ctx: Context, k: string)
    requires SortedMap.Sorted(s.additional)
    ensures k in SortedMap.ToMap(Step(s, p, ctx).additional) <==>
            k in SortedMap.ToMap(s.additional) || (Adds(p, ctx) && Key(p, ctx) == k)
    ensures !(Adds(p, ctx) && Key(p, ctx) == k) && k in SortedMap.ToMap(s.additional) ==>
            SortedMap.ToMap(Step(s, p, ctx).additional)[k] == SortedMap.ToMap(s.additional)[k]
  {
  }

  /** Some property of `props` adds a value under `k`. */
  predicate AddsKey(props: seq<Property>, ctx: Context, k: string) {
    exists i :: 0 <= i < |props| && Adds(props[i], ctx) && Key(props[i], ctx) == k
  }

  lemma AddsKeyLast(props: seq<Property>, ctx: Context, k: string)
    requires |props| > 0
    ensures AddsKey(props, ctx, k) <==>
            AddsKey(props[..|props| - 1], ctx, k) || (Adds(props[|props| - 1], ctx) && Key(props[|props| - 1], ctx) == k)
  {
    var init, last := props[..|props| - 1], props[|props| - 1];
    if AddsKey(init, ctx, k) {
      var i :| 0 <= i < |init| && Adds(init[i], ctx) && Key(init[i], ctx) == k;
      assert props[i] == init[i];
    }
    if AddsKey(props, ctx, k) && !(Adds(last, ctx) && Key(last, ctx) == k) {
      var i :| 0 <= i < |props| && Adds(props[i], ctx) && Key(props[i], ctx) == k;
      assert init[i] == props[i];
    }
  }

  /**
   * After scanning `props`, a key is in the description map exactly when it was before or
   * some property adds a value under it; a key no property adds keeps its value.
   */
  lemma {:induction false} AdditionalKeys(s: Scan, props: seq<Property>, ctx: Context, k: string)
    requires SortedMap.Sorted(s.additional)
    ensures k in SortedMap.ToMap(ScanFrom(s, props, ctx).additional) <==>
            k in SortedMap.ToMap(s.additional) || AddsKey(props, ctx, k)
    ensures !AddsKey(props, ctx, k) && k in SortedMap.ToMap(s.additional) ==>
            SortedMap.ToMap(ScanFrom(s, props, ctx).additional)[k] == SortedMap.ToMap(s.additional)[k]
    decreases |props|
  {
    if |props| > 0 {
      var init, last := props[..|props| - 1], props[|props| - 1];
      AdditionalKeys(s, init, ctx, k);
      StepKey(ScanFrom(s, init, ctx), last, ctx, k);
      AddsKeyLast(props, ctx, k);
    }
  }

  /** A key's value is the value of the last property that adds under that key (a later insert overwrites). */
  lemma LastValueWins(a: seq<Property>, p: Property, b: seq<Property>, ctx: Context)
    requires Adds(p, ctx)
    requires !AddsKey(b, ctx, Key(p, ctx))
    ensures Key(p, ctx) in SortedMap.ToMap(ScanFrom(Initial, a + [p] + b, ctx).additional)
    ensures SortedMap.ToMap(ScanFrom(Initial, a + [p] + b, ctx).additional)[Key(p, ctx)] == Display(p.1, ctx).1
  {
    var head := a + [p];
    ScanAppend(Initial, head, b, ctx);
    assert head[..|head| - 1] == a;
    AdditionalKeys(ScanFrom(Initial, head, ctx), b, ctx, Key(p, ctx));
  }

  /** A title prefix is put in parentheses before the title; without one the title is unchanged. */
  function FinalTitle(prefix: string, title: string): (r: string)
    ensures prefix == "" ==> r == title
    ensures prefix != "" ==> r == "(" + prefix + ") " + title
  {
    if prefix != "" then "(" + prefix + ") " + title else title
  }

  /**
   * The entry a page yields: there is one exactly when the scan of its properties ends
   * with a date.
   */
  function PageEntry(page: NotionPage, ctx: Context): (r: Option<Dates.DateEntry>)
    ensures r.Some? <==> ScanFrom(Initial, page.properties, ctx).date.Some?
    ensures r.Some? ==> && r.value.id == page.id
                        && r.value.url == page.url
                        && r.value.emoji.None?
                        && r.value.date == ScanFrom(Initial, page.properties, ctx).date.value
                        && r.value.title == FinalTitle(ScanFrom(Initial, page.properties, ctx).titlePrefix, PageTitle(page))
                        && SortedMap.Sorted(r.value.additional)
  {
    var s := ScanFrom(Initial, page.properties, ctx);
    if s.date.Some? then
      Some(Dates.DateEntry(page.id, None, FinalTitle(s.titlePrefix, PageTitle(page)), s.date.value, page.url, s.additional))
    else
      None
  }

  /** A page none of whose Date properties has a value yields no entry. */
  lemma PageWithoutDateDropped(page: NotionPage, ctx: Context)
    requires forall i :: 0 <= i < |page.properties| ==> !SetsDate(page.properties[i])
    ensures PageEntry(page, ctx).None?
  {
    DateUnchanged(Initial, page.properties, ctx);
  }

  /**
   * The event of a page's entry is summarised by the page's final title alone: the icon's
   * emoji is already part of the page title, and the entry adds no second one.
   */
  lemma EntrySummary(page: NotionPage, ctx: Context)
    requires PageEntry(page, ctx).Some?
    ensures Dates.EventOf(PageEntry(page, ctx).value).summary ==
            FinalTitle(ScanFrom(Initial, page.properties, ctx).titlePrefix, PageTitle(page))
  {
  }

  /**
   * The last Status property decides the entry's title: a standard status puts its glyph in
   * parentheses before the page title, any other status leaves the page title as it is.
   */
  lemma StatusTitle(page: NotionPage, a: seq<Property>, name: string, status: NotionSelect, b: seq<Property>, ctx: Context)
    requires page.properties == a + [(name, Status(status))] + b
    requires forall i :: 0 <= i < |b| ==> !b[i].1.Status?
    requires PageEntry(page, ctx).Some?
    ensures status.id != NotionSelectType.Unknown ==>
            PageEntry(page, ctx).value.title == "(" + StatusPrefix(status.id) + ") " + PageTitle(page)
    ensures status.id == NotionSelectType.Unknown ==> PageEntry(page, ctx).value.title == PageTitle(page)
  {
    LastStatusDecides(a, name, status, b, ctx);
  }

  /** Without a Status property, the entry's title is the page title. */
  lemma NoStatusTitle(page: NotionPage, ctx: Context)
    requires forall i :: 0 <= i < |page.properties| ==> !page.properties[i].1.Status?
    requires PageEntry(page, ctx).Some?
    ensures PageEntry(page, ctx).value.title == PageTitle(page)
  {
    PrefixUnchanged(Initial, page.properties, ctx);
  }

  /** The entries of the pages that yield one, in page order. */
  function Entries(pages: seq<NotionPage>, ctx: Context): (r: seq<Dates.DateEntry>)
    ensures |r| <= |pages|
    ensures forall e :: e in r ==> exists p :: p in pages && PageEntry(p, ctx) == Some(e)
    decreases |pages|
  {
    if |pages| == 0 then []
    else
      var last := pages[|pages| - 1];
      var init := pages[..|pages| - 1];
      assert forall p :: p in init ==> p in pages;
      Entries(init, ctx) + (if PageEntry(last, ctx).Some? then [PageEntry(last, ctx).value] else [])
  }

  /** Entries keep the order of the pages they come from. */
  lemma {:induction false} EntriesAppend(a: seq<NotionPage>, b: seq<NotionPage>, ctx: Context)
    ensures Entries(a + b, ctx) == Entries(a, ctx) + Entries(b, ctx)
    decreases |b|
  {
    if |b| == 0 {
      assert a + b == a;
    } else {
      assert (a + b)[..|a + b| - 1] == a + b[..|b| - 1];
      EntriesAppend(a, b[..|b| - 1], ctx);
    }
  }

  // ---------------------------------------------------------------------------
  // The loops of the program

  /** The loop that writes each item's text followed by a space. */
  method JoinText<T>(items: seq<T>, text: T -> string) returns (joined: string)
    ensures joined == Joined(items, text)
  {
    joined := "";
    for j := 0 to |items|
      invariant joined == Joined(items[..j], text)
    {
      assert items[..j + 1][..j] == items[..j];
      joined := joined + text(items[j]) + " ";
    }
    assert items[..|items|] == items;
  }

  /** The loop over a Relation property's relations: each page fetched sets the label and replaces the value with its title. */
  method ResolveRelations(relations: seq<NotionRelation>, ctx: Context) returns (propEmoji: string, propValue: string)
    ensures (propEmoji, propValue) == Resolved(relations, ctx)
  {
    propEmoji, propValue := UnsetLabel, "";
    for j := 0 to |relations|
      invariant (propEmoji, propValue) == Resolved(relations[..j], ctx)
    {
      assert relations[..j + 1][..j] == relations[..j];
      var fetched := ctx.fetchPage(relations[j].id);
      match fetched {
      case Some(related) =>
        propEmoji := RelationLabel;
        propValue := related.Title();
      case None =>
      }
    }
    assert relations[..|relations|] == relations;
  }

  /**
   * The match on one property's kind in `notion_query_database`: a Date property with a
   * value replaces the date, a Status property replaces the title prefix, and every kind
   * yields its label and value text.
   */
  method ScanProperty(prop: NotionPropertyValue, ctx: Context, date: Option<Dates.Date>, titlePrefix: string)
    returns (newDate: Option<Dates.Date>, newPrefix: string, propEmoji: string, propValue: string)
    ensures newDate == if prop.Date? && prop.date.Some? then Dates.DateFrom(prop.date.value).ToOption() else date
    ensures newPrefix == if prop.Status? then StatusPrefix(prop.status.id) else titlePrefix
    ensures (propEmoji, propValue) == Display(prop, ctx)
  {
    newDate, newPrefix := date, titlePrefix;
    propEmoji := UnsetLabel;
    propValue := "";

    match prop {
    case Date(Some(value)) =>
      var parsed := Dates.TryFrom(value);
      newDate := parsed.ToOption();
    case Number(value) =>
      propEmoji := NumberLabel;
      propValue := ctx.formatNumber(value.GetOr(0.0));
    case RichText(value) =>
      propEmoji := RichTextLabel;
      propValue := JoinText(value, PlainText);
    case Url(value) =>
      propEmoji := UrlLabel;
      propValue := value.GetOr("");
    case MultiSelect(value) =>
      propEmoji := MultiSelectLabel;
      propValue := JoinText(value, OptionName);
    case Select(Some(value)) =>
      propEmoji := SelectLabel;
      propValue := value.name;
    case People(value) =>
      propEmoji := PeopleLabel;
      propValue := JoinText(value, PersonName);
    case Status(value) =>
      propEmoji := StatusLabel;
      propValue := value.name;
      newPrefix := match value.id
        case Done => DoneGlyph
        case InProgress => InProgressGlyph
        case NotStarted => NotStartedGlyph
        case _ => "";
    case Relation(value) =>
      propEmoji, propValue := ResolveRelations(value, ctx);
    case _ =>
    }
  }

  /**
   * The per-page body of `notion_query_database`: scans the properties in order, adding
   * each non-empty value to the ordered map under its label and name, then builds the
   * entry when a date was found.
   */
  method ProcessPage(page: NotionPage, ctx: Context) returns (entry: Option<Dates.DateEntry>)
    ensures entry == PageEntry(page, ctx)
  {
    var date: Option<Dates.Date> := None;
    var titlePrefix := "";
    // Optional additional information, which becomes the event description
    var additional: SortedMap.Entries := [];

    for i := 0 to |page.properties|
      invariant SortedMap.Sorted(additional)
      invariant Scan(date, titlePrefix, additional) == ScanFrom(Initial, page.properties[..i], ctx)
    {
      assert page.properties[..i + 1][..i] == page.properties[..i];
      var (propName, prop) := page.properties[i];
      var propEmoji, propValue;
      date, titlePrefix, propEmoji, propValue := ScanProperty(prop, ctx, date, titlePrefix);
      if propValue != "" {
        additional := SortedMap.Insert(additional, propEmoji + " " + propName, propValue);
      }
    }
    assert page.properties[..|page.properties|] == page.properties;

    var title := page.Title();
    if titlePrefix != "" {
      title := "(" + titlePrefix + ") " + title;
    }

    // Only pages whose Date property is set become entries
    if date.Some? {
      entry := Some(Dates.DateEntry(page.id, None, title, date.value, page.url, additional));
    } else {
      entry := None;
    }
  }

  /** The page loop of `notion_query_database`: one entry per page that has a date, in page order. */
  method QueryDatabase(pages: seq<NotionPage>, ctx: Context) returns (dateEntries: seq<Dates.DateEntry>)
    ensures dateEntries == Entries(pages, ctx)
  {
    dateEntries := [];
    for i := 0 to |pages|
      invariant dateEntries == Entries(pages[..i], ctx)
    {
      assert pages[..i + 1][..i] == pages[..i];
      var entry := ProcessPage(pages[i], ctx);
      if entry.Some? {
        dateEntries := dateEntries + [entry.value];
      }
    }
    assert pages[..|pages|] == pages;
  }

  // ---------------------------------------------------------------------------
  // The calendar

  /** The name every generated calendar carries. */
  const CalendarName: string := "notion2ics"

  /** A calendar document being assembled: its name and its events, in the order pushed. */
  class Calendar {
    var name: string
    var events: seq<Dates.Event>

    constructor (name: string)
      ensures this.name == name && events == []
    {
      this.name := name;
      events := [];
    }

    method Push(event: Dates.Event)
      modifies this
      ensures name == old(name)
      ensures events == old(events) + [event]
    {
      events := events + [event];
    }
  }

  /** The event loop of `create_ics`: one event per entry, in entry order, in a calendar named `notion2ics`. */
  method CreateIcs(entries: seq<Dates.DateEntry>) returns (calendar: Calendar)
    ensures calendar.name == CalendarName
    ensures |calendar.events| == |entries|
    ensures forall i :: 0 <= i < |entries| ==> calendar.events[i] == Dates.EventOf(entries[i])
  {
    calendar := new Calendar(CalendarName);
    for i := 0 to |entries|
      invariant calendar.name == CalendarName
      invariant |calendar.events| == i
      invariant forall k :: 0 <= k < i ==> calendar.events[k] == Dates.EventOf(entries[k])
    {
      var event := entries[i].AsEvent();
      calendar.Push(event);
    }
  }
}
