/**
 * The shapes of the Notion API's answers (pages and their typed properties) and the
 * one piece of logic attached to them: how a page's display title is derived.
 */
module Notion {
  import opened Wrappers

  /** The JSON payload of a property kind the program ignores; it is never looked into. */
  type Json = string

  datatype NotionIcon = NotionIcon(emoji: Option<string>)

  datatype NotionTextType = Mention | Text

  /** One fragment of rich text; only its plain-text rendering is used. */
  datatype NotionText = NotionText(textType: NotionTextType, plainText: string)

  /** A date property's value: `start` and `end` as Notion writes them. `timezone` is carried but never read. */
  datatype NotionDate = NotionDate(start: string, end: Option<string>, timezone: Option<string>)

  datatype NotionRelation = NotionRelation(id: string)

  datatype NotionPerson = NotionPerson(id: string, name: Option<string>)

  /** The three standard status ids; every other id (user-created statuses, select options) is `Unknown`. */
  datatype NotionSelectType = NotStarted | InProgress | Done | Unknown

  datatype NotionSelect = NotionSelect(id: NotionSelectType, name: string)

  /** A property value, tagged by its kind; kinds the program does not use keep their raw JSON. */
  datatype NotionPropertyValue =
    | Date(date: Option<NotionDate>)
    | Title(title: seq<NotionText>)
    | Number(number: Option<real>)
    | RichText(richText: seq<NotionText>)
    | Url(url: Option<string>)
    | Select(select: Option<NotionSelect>)
    | MultiSelect(multiSelect: seq<NotionSelect>)
    | Relation(relation: seq<NotionRelation>)
    | People(people: seq<NotionPerson>)
    | Status(status: NotionSelect)
    | Checkbox(checkbox: Json)
    | CreatedBy(createdBy: Json)
    | CreatedTime(createdTime: Json)
    | Email(email: Json)
    | Files(files: Json)
    | Formula(formula: Json)
    | LastEditedBy(lastEditedBy: Json)
    | LastEditedTime(lastEditedTime: Json)
    | PhoneNumber(phoneNumber: Json)
    | Rollup(rollup: Json)
    | Unknown

  /** A named property, as the page's property map yields it. */
  type Property = (string, NotionPropertyValue)

  /**
   * A database page. `properties` lists the page's property map in the order the map
   * is iterated, an order the program does not control.
   */
  datatype NotionPage = NotionPage(
    id: string,
    icon: Option<NotionIcon>,
    url: string,
    properties: seq<Property>,
    createdTime: string,
    lastEditedTime: string,
    archived: bool)
  {
    /** `NotionPage::title`: overwrites the title for each Title property in turn, then adds the icon's emoji. */
    method Title() returns (title: string)
      ensures title == PageTitle(this)
    {
      title := "";
      for i := 0 to |this.properties|
        invariant title == BaseTitle(this.properties[..i])
      {
        assert this.properties[..i + 1][..i] == this.properties[..i];
        match this.properties[i].1
        case Title(value) =>
          if |value| > 0 {
            title := value[0].plainText;
          }
        case _ =>
      }
      assert this.properties[..|this.properties|] == this.properties;
      if this.icon.Some? && this.icon.value.emoji.Some? {
        title := this.icon.value.emoji.value + " " + title;
      }
    }
  }

  // ---------------------------------------------------------------------------
  // Status ids

  /** The kebab-case id under which Notion sends each standard status. */
  function SelectTypeId(t: NotionSelectType): string
    requires t != NotionSelectType.Unknown
  {
    match t
    case NotStarted => "not-started"
    case InProgress => "in-progress"
    case Done => "done"
  }

  /** Reads a status id: a standard id gives its status, any other string gives `Unknown`. */
  function SelectTypeOf(id: string): (t: NotionSelectType)
    ensures t != NotionSelectType.Unknown ==> SelectTypeId(t) == id
    ensures forall k: NotionSelectType :: k != NotionSelectType.Unknown && SelectTypeId(k) == id ==> t == k
  {
    if id == "not-started" then NotStarted
    else if id == "in-progress" then InProgress
    else if id == "done" then Done
    else NotionSelectType.Unknown
  }

  // ---------------------------------------------------------------------------
  // Page title

  /** The property replaces the title: a Title property with at least one fragment. */
  predicate SetsTitle(p: Property) {
    p.1.Title? && |p.1.title| > 0
  }

  /**
   * The title the property scan leaves behind: the first fragment's plain text of the
   * last property that sets the title, or the empty string.
   */
  function BaseTitle(props: seq<Property>): string
    decreases |props|
  {
    if |props| == 0 then ""
    else if SetsTitle(props[|props| - 1]) then props[|props| - 1].1.title[0].plainText
    else BaseTitle(props[..|props| - 1])
  }

  /** The page's display title: the icon's emoji and a space in front of the base title, when there is one. */
  function PageTitle(page: NotionPage): string {
    match page.icon
    case Some(NotionIcon(Some(emoji))) => emoji + " " + BaseTitle(page.properties)
    case _ => BaseTitle(page.properties)
  }

  /** Scanning more properties keeps the title unless one of them sets it, and then only they matter. */
  lemma {:induction false} BaseTitleAppend(a: seq<Property>, b: seq<Property>)
    ensures (exists i :: 0 <= i < |b| && SetsTitle(b[i])) ==> BaseTitle(a + b) == BaseTitle(b)
    ensures (forall i :: 0 <= i < |b| ==> !SetsTitle(b[i])) ==> BaseTitle(a + b) == BaseTitle(a)
    decreases |b|
  {
    if |b| == 0 {
      assert a + b == a;
    } else {
      var n := |b| - 1;
      assert (a + b)[..|a + b| - 1] == a + b[..n];
      BaseTitleAppend(a, b[..n]);
      if !SetsTitle(b[n]) && exists i :: 0 <= i < |b| && SetsTitle(b[i]) {
        var i :| 0 <= i < |b| && SetsTitle(b[i]);
        assert SetsTitle(b[..n][i]);
      }
    }
  }

  /** The last title-setting property decides the title, whatever its fragment type. */
  lemma LastTitleWins(a: seq<Property>, name: string, fragments: seq<NotionText>, b: seq<Property>)
    requires |fragments| > 0
    requires forall i :: 0 <= i < |b| ==> !SetsTitle(b[i])
    ensures BaseTitle(a + [(name, NotionPropertyValue.Title(fragments))] + b) == fragments[0].plainText
  {
    BaseTitleAppend(a + [(name, NotionPropertyValue.Title(fragments))], b);
  }

  /** Without a Title property that has a fragment, the base title is empty. */
  lemma NoTitleIsEmpty(props: seq<Property>)
    requires forall i :: 0 <= i < |props| ==> !SetsTitle(props[i])
    ensures BaseTitle(props) == ""
  {
    BaseTitleAppend([], props);
    assert [] + props == props;
  }

  /** A property that does not set the title (another kind, or a Title with no fragment) can be dropped. */
  lemma OtherPropertiesIgnored(a: seq<Property>, p: Property, b: seq<Property>)
    requires !SetsTitle(p)
    ensures BaseTitle(a + [p] + b) == BaseTitle(a + b)
  {
    BaseTitleAppend(a + [p], b);
    BaseTitleAppend(a, b);
    BaseTitleAppend(a, [p]);
    assert (a + [p]) + b == a + [p] + b;
  }
}
