/** The `projects` record types and the pure normalisers of the repository in
    src/lib/projects.ts: `buildPayload` (write side), `normalizeRow`,
    `parseJson` and `toBoolean` (read side). */
module ProjectModel {

  import opened Wrappers
  import opened Text

  /** Store-assigned row identity. */
  type Id = nat

  datatype Metric = Metric(value: string, labelText: string)  // `label` is a Dafny keyword
  datatype Approach = Approach(title: string, detail: string)
  datatype Cover = Cover(background: string, foreground: string)

  const FALLBACK_COVER := Cover("linear-gradient(135deg, #0f172a 0%, #1d4ed8 60%, #93c5fd 100%)", "#ffffff")

  const TITLE_REQUIRED := "Project title is required."

  /** The optional free-text columns of a project, one value of type `T` each. */
  datatype Details<T> = Details(
    client: T, year: T, category: T, role: T, duration: T, team: T,
    summary: T, overview: T, problem: T, solution: T, outcome: T,
    coverImageUrl: T, figmaEmbed: T)
  {
    function Map<U>(f: T -> U): (d: Details<U>)
      ensures forall i :: 0 <= i < 13 ==> d.Fields()[i] == f(Fields()[i])
    {
      Details(f(client), f(year), f(category), f(role), f(duration), f(team),
              f(summary), f(overview), f(problem), f(solution), f(outcome),
              f(coverImageUrl), f(figmaEmbed))
    }

    function Fields(): (s: seq<T>)
      ensures |s| == 13
    {
      [client, year, category, role, duration, team, summary, overview,
       problem, solution, outcome, coverImageUrl, figmaEmbed]
    }
  }

  /** The string-list columns of a project, one value of type `T` each. */
  datatype Collections<T> = Collections(tools: T, goals: T, responsibilities: T, highlights: T, tags: T)
  {
    function Map<U>(f: T -> U): Collections<U> {
      Collections(f(tools), f(goals), f(responsibilities), f(highlights), f(tags))
    }
  }

  /** A `ProjectInput` as it arrives in a request body: every field may be absent. */
  datatype ProjectInput = ProjectInput(
    slug: Option<string>,
    title: Option<string>,
    details: Details<Option<string>>,
    lists: Collections<Option<seq<string>>>,
    approach: Option<seq<Approach>>,
    metrics: Option<seq<Metric>>,
    cover: Option<Cover>,
    isFeatured: Option<bool>,
    isPublished: Option<bool>,
    sortOrder: Option<int>)

  /** The statement parameters `buildPayload` produces; JSON columns are text. */
  datatype Payload = Payload(
    slug: string,
    title: string,
    details: Details<Option<string>>,
    lists: Collections<string>,
    approach: string,
    metrics: string,
    cover: string,
    isFeatured: bool,
    isPublished: bool,
    sortOrder: int)

  /** A value of a JSON column as the driver hands it back: SQL NULL, text that
      still has to be parsed, or an already structured value. */
  datatype JsonCell<T> = Null | Text(text: string) | Value(value: T)

  /** A boolean column as the driver may hand it back. */
  datatype Scalar = SNull | SBool(b: bool) | SText(s: string) | SInt(n: int)

  /** A stored row of the `projects` table. */
  datatype Row = Row(
    id: Id,
    slug: string,
    title: string,
    details: Details<Option<string>>,
    lists: Collections<JsonCell<seq<string>>>,
    approach: JsonCell<seq<Approach>>,
    metrics: JsonCell<seq<Metric>>,
    cover: JsonCell<Cover>,
    isFeatured: Scalar,
    isPublished: Scalar,
    sortOrder: Option<int>,
    createdAt: int,
    updatedAt: int)

  /** The `Project` every read operation returns. */
  datatype Project = Project(
    id: Id,
    slug: string,
    title: string,
    details: Details<Option<string>>,
    lists: Collections<seq<string>>,
    approach: seq<Approach>,
    metrics: seq<Metric>,
    cover: Cover,
    isFeatured: bool,
    isPublished: bool,
    sortOrder: int,
    createdAt: int,
    updatedAt: int)

  /** `JSON.stringify` and `JSON.parse` for the four shapes stored as JSON;
      `None` from a decoder is a parse failure. */
  datatype JsonCodec = JsonCodec(
    encodeStrings: seq<string> -> string,
    decodeStrings: string -> Option<seq<string>>,
    encodeApproach: seq<Approach> -> string,
    decodeApproach: string -> Option<seq<Approach>>,
    encodeMetrics: seq<Metric> -> string,
    decodeMetrics: string -> Option<seq<Metric>>,
    encodeCover: Cover -> string,
    decodeCover: string -> Option<Cover>)

  /** Parsing what was serialised gives the value back. */
  ghost predicate RoundTrips(json: JsonCodec) {
    && (forall xs :: json.decodeStrings(json.encodeStrings(xs)) == Some(xs))
    && (forall xs :: json.decodeApproach(json.encodeApproach(xs)) == Some(xs))
    && (forall xs :: json.decodeMetrics(json.encodeMetrics(xs)) == Some(xs))
    && (forall c :: json.decodeCover(json.encodeCover(c)) == Some(c))
  }

  /** `clean` inside `buildPayload`: absent and empty values become `null`,
      anything else is trimmed (so a blank value is stored as ""). */
  function Clean(v: Option<string>): (r: Option<string>)
    ensures r.None? <==> v.None? || v.value == ""
    ensures r.Some? ==> IsTrimmed(r.value) && |r.value| <= |v.value|
  {
    if v.None? || v.value == "" then None else Some(Trim(v.value))
  }

  /** `row.x ? String(row.x) : null`: NULL and "" both read back as `null`. */
  function ReadText(v: Option<string>): (r: Option<string>)
    ensures r.Some? ==> r.value != ""
    ensures v.Some? && v.value != "" ==> r == v
  {
    if v.None? || v.value == "" then None else v
  }

  /** `parseJson(value, fallback)`. */
  function ParseJson<T>(cell: JsonCell<T>, decode: string -> Option<T>, fallback: T): (r: T)
    ensures cell.Null? ==> r == fallback
    ensures cell.Value? ==> r == cell.value
    ensures cell.Text? && decode(cell.text).None? ==> r == fallback
    ensures cell.Text? && decode(cell.text).Some? ==> r == decode(cell.text).value
  {
    match cell
    case Null => fallback
    case Value(v) => v
    case Text(s) => decode(s).GetOr(fallback)
  }

  /** `toBoolean`: only `true`, `"t"` and `1` read as true. */
  function ToBoolean(v: Scalar): (r: bool)
    ensures v.SBool? ==> r == v.b
    ensures v.SNull? ==> !r
    ensures v.SText? ==> (r <==> v.s == "t")
    ensures v.SInt? ==> (r <==> v.n == 1)
  {
    v == SBool(true) || v == SText("t") || v == SInt(1)
  }

  /** The title check of `createProject` and `updateProject`. */
  predicate TitleMissing(input: ProjectInput) {
    input.title.None? || Trim(input.title.value) == ""
  }

  /** `slugify(input.slug?.trim() || input.title)`. */
  function BaseSlug(slugify: string -> string, input: ProjectInput): (s: string)
    requires input.title.Some?
    ensures input.slug.Some? && Trim(input.slug.value) != "" ==> s == slugify(Trim(input.slug.value))
    ensures input.slug.None? || Trim(input.slug.value) == "" ==> s == slugify(input.title.value)
  {
    var explicit := if input.slug.Some? then Trim(input.slug.value) else "";
    slugify(if explicit != "" then explicit else input.title.value)
  }

  /** `buildPayload(input, slug)`. */
  function BuildPayload(input: ProjectInput, slug: string, json: JsonCodec): (p: Payload)
    requires input.title.Some?
    ensures p.slug == slug && p.title == Trim(input.title.value)
    ensures forall i :: 0 <= i < 13 ==> p.details.Fields()[i] == Clean(input.details.Fields()[i])
    ensures p.cover == json.encodeCover(input.cover.GetOr(FALLBACK_COVER))
    ensures p.isPublished == input.isPublished.GetOr(true)
    ensures p.isFeatured == input.isFeatured.GetOr(false)
    ensures p.sortOrder == input.sortOrder.GetOr(0)
  {
    Payload(
      slug,
      Trim(input.title.value),
      input.details.Map(Clean),
      input.lists.Map((xs: Option<seq<string>>) => json.encodeStrings(xs.GetOr([]))),
      json.encodeApproach(input.approach.GetOr([])),
      json.encodeMetrics(input.metrics.GetOr([])),
      json.encodeCover(input.cover.GetOr(FALLBACK_COVER)),
      input.isFeatured.GetOr(false),
      input.isPublished.GetOr(true),
      input.sortOrder.GetOr(0))
  }

  /** The row an INSERT or UPDATE with the payload's parameters leaves in the
      table; JSON parameters are stored as the text that was sent. */
  function WriteRow(id: Id, p: Payload, createdAt: int, updatedAt: int): (row: Row)
    ensures row.id == id && row.slug == p.slug
  {
    Row(id, p.slug, p.title, p.details,
        p.lists.Map((s: string) => Text(s)),
        Text(p.approach), Text(p.metrics), Text(p.cover),
        SBool(p.isFeatured), SBool(p.isPublished), Some(p.sortOrder),
        createdAt, updatedAt)
  }

  /** `normalizeRow(row)`. */
  function NormalizeRow(row: Row, json: JsonCodec): (p: Project)
    ensures p.id == row.id && p.slug == row.slug
    ensures p.isPublished == ToBoolean(row.isPublished)
  {
    Project(
      row.id, row.slug, row.title,
      row.details.Map(ReadText),
      row.lists.Map((c: JsonCell<seq<string>>) => ParseJson(c, json.decodeStrings, [])),
      ParseJson(row.approach, json.decodeApproach, []),
      ParseJson(row.metrics, json.decodeMetrics, []),
      ParseJson(row.cover, json.decodeCover, FALLBACK_COVER),
      ToBoolean(row.isFeatured),
      ToBoolean(row.isPublished),
      row.sortOrder.GetOr(0),
      row.createdAt,
      row.updatedAt)
  }

  /** What reading back an optional text field yields after writing it: the
      trimmed value, or `null` when it was absent, empty or blank. */
  function StoredText(v: Option<string>): Option<string> {
    if v.Some? && Trim(v.value) != "" then Some(Trim(v.value)) else None
  }

  /** Writing a text field and reading it back: a blank value written as ""
      comes back as `null`. */
  lemma CleanThenRead(v: Option<string>)
    ensures ReadText(Clean(v)) == StoredText(v)
    ensures v.Some? && AllSpace(v.value) ==> ReadText(Clean(v)) == None
  {
    if v.Some? {
      TrimEmpty(v.value);
    }
  }

  /** A project written by `buildPayload` and read back by `normalizeRow`
      carries the input's values, with the write-side defaults filled in. */
  lemma {:induction false} WriteThenRead(input: ProjectInput, slug: string, json: JsonCodec, id: Id, created: int, updated: int)
    requires input.title.Some?
    requires RoundTrips(json)
    ensures var p := NormalizeRow(WriteRow(id, BuildPayload(input, slug, json), created, updated), json);
      && p.id == id && p.slug == slug && p.title == Trim(input.title.value)
      && p.details == input.details.Map(StoredText)
      && p.lists == input.lists.Map((xs: Option<seq<string>>) => xs.GetOr([]))
      && p.approach == input.approach.GetOr([])
      && p.metrics == input.metrics.GetOr([])
      && p.cover == input.cover.GetOr(FALLBACK_COVER)
      && p.isFeatured == input.isFeatured.GetOr(false)
      && p.isPublished == input.isPublished.GetOr(true)
      && p.sortOrder == input.sortOrder.GetOr(0)
      && p.createdAt == created && p.updatedAt == updated
  {
    var pay := BuildPayload(input, slug, json);
    var row := WriteRow(id, pay, created, updated);
    var p := NormalizeRow(row, json);
    var d := input.details;
    forall v: Option<string> ensures ReadText(Clean(v)) == StoredText(v) {
      CleanThenRead(v);
    }
    assert p.details == d.Map(StoredText);
    var l := input.lists;
    assert json.decodeStrings(json.encodeStrings(l.tools.GetOr([]))) == Some(l.tools.GetOr([]));
    assert json.decodeStrings(json.encodeStrings(l.goals.GetOr([]))) == Some(l.goals.GetOr([]));
    assert json.decodeStrings(json.encodeStrings(l.responsibilities.GetOr([]))) == Some(l.responsibilities.GetOr([]));
    assert json.decodeStrings(json.encodeStrings(l.highlights.GetOr([]))) == Some(l.highlights.GetOr([]));
    assert json.decodeStrings(json.encodeStrings(l.tags.GetOr([]))) == Some(l.tags.GetOr([]));
    assert json.decodeApproach(json.encodeApproach(input.approach.GetOr([]))) == Some(input.approach.GetOr([]));
    assert json.decodeMetrics(json.encodeMetrics(input.metrics.GetOr([]))) == Some(input.metrics.GetOr([]));
    assert json.decodeCover(json.encodeCover(input.cover.GetOr(FALLBACK_COVER))) == Some(input.cover.GetOr(FALLBACK_COVER));
  }
}
