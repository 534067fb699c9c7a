/** The admin project editor of src/components/admin/project-form.tsx: the
    conversions between string lists and textarea text, the initial form
    state, the metric and approach row editors, and the payload the form
    submits. */
module ProjectForm {

  import opened Wrappers
  import opened Text
  import opened Seqs
  import opened ProjectModel

  const DEFAULT_COVER_BACKGROUND: string := "linear-gradient(135deg, #0f172a 0%, #1d4ed8 60%, #93c5fd 100%)"
  const DEFAULT_COVER_FOREGROUND: string := "#ffffff"
  const SAVED: string := "Project saved."
  const SAVE_FAILED: string := "Failed to save project."

  /** The form fields. The free-text details are one string each (empty
      when unset); the lists are edited as newline-separated text. */
  datatype FormState = FormState(
    title: string,
    slug: string,
    details: Details<string>,
    sortOrder: string,
    isFeatured: bool,
    isPublished: bool,
    coverBackground: string,
    coverForeground: string,
    listTexts: Collections<string>)

  // ---- lists as text

  /** `listToText`: one item per line. */
  function ListToText(values: seq<string>): string {
    Join(values, "\n")
  }

  predicate NonEmpty(s: string) {
    s != ""
  }

  /** Each line trimmed, in order: `lines.map((item) => item.trim())`. */
  function TrimEach(lines: seq<string>): (r: seq<string>)
    ensures |r| == |lines| && forall i :: 0 <= i < |lines| ==> r[i] == Trim(lines[i])
  {
    seq(|lines|, i requires 0 <= i < |lines| => Trim(lines[i]))
  }

  /** `lines.map((item) => item.trim()).filter(Boolean)`: each line trimmed,
      the empty ones dropped. The items are exactly the non-empty trimmed
      lines, in their order and with their repetitions. */
  function CleanLines(lines: seq<string>): (items: seq<string>)
    ensures |items| <= |lines|
    ensures forall i :: 0 <= i < |items| ==> items[i] != "" && IsTrimmed(items[i])
    ensures items == Filter(NonEmpty, TrimEach(lines))
    decreases |lines|
  {
    if lines == [] then []
    else
      assert TrimEach(lines)[1..] == TrimEach(lines[1..]);
      if Trim(lines[0]) != "" then [Trim(lines[0])] + CleanLines(lines[1..])
      else CleanLines(lines[1..])
  }

  /** Every item kept is the trim of one of the lines. */
  lemma {:induction false} CleanLinesFrom(lines: seq<string>, item: string)
    requires item in CleanLines(lines)
    ensures exists i :: 0 <= i < |lines| && item == Trim(lines[i])
  {
    if item != Trim(lines[0]) {
      CleanLinesFrom(lines[1..], item);
      var i :| 0 <= i < |lines[1..]| && item == Trim(lines[1..][i]);
      assert item == Trim(lines[i + 1]);
    }
  }

  /** Lines already non-empty and trimmed are kept as they are. */
  lemma {:induction false} CleanLinesOfClean(lines: seq<string>)
    requires forall i :: 0 <= i < |lines| ==> lines[i] != "" && IsTrimmed(lines[i])
    ensures CleanLines(lines) == lines
  {
    if lines != [] {
      TrimOfTrimmed(lines[0]);
      CleanLinesOfClean(lines[1..]);
    }
  }

  /** Every item is one of the lines trimmed, the items keep the lines'
      order, and no non-blank line is lost. */
  lemma CleanLinesInOrder(lines: seq<string>)
    ensures IsSubsequence(CleanLines(lines), TrimEach(lines))
    ensures forall i :: 0 <= i < |lines| && Trim(lines[i]) != "" ==> Trim(lines[i]) in CleanLines(lines)
  {
    FilterIsSubsequence(NonEmpty, TrimEach(lines));
  }

  /** `textToList`: the lines, trimmed, without the empty ones. */
  function TextToList(value: string): seq<string> {
    CleanLines(Split(value, '\n'))
  }

  /** Items that survive a trip through the textarea: non-empty, trimmed,
      without a line break. */
  predicate ListItem(s: string) {
    s != "" && IsTrimmed(s) && '\n' !in s
  }

  /** A list of such items comes back unchanged from its text. */
  lemma ListTextRoundTrip(values: seq<string>)
    requires forall i :: 0 <= i < |values| ==> ListItem(values[i])
    ensures TextToList(ListToText(values)) == values
  {
    if values == [] {
      SplitNoSeparator("", '\n');
      assert Trim("") == "";
    } else {
      SplitJoin(values, '\n');
      CleanLinesOfClean(values);
    }
  }

  /** Reading a text back after writing it normalises it once and for all:
      the list of a list's text is the list itself. */
  lemma TextToListIdempotent(value: string)
    ensures TextToList(ListToText(TextToList(value))) == TextToList(value)
  {
    var items := TextToList(value);
    forall i | 0 <= i < |items| ensures ListItem(items[i]) {
      TextToListNoBreak(value, items[i]);
    }
    ListTextRoundTrip(items);
  }

  /** No item of `textToList` holds a line break. */
  lemma TextToListNoBreak(value: string, item: string)
    requires item in TextToList(value)
    ensures '\n' !in item
  {
    var lines := Split(value, '\n');
    CleanLinesFrom(lines, item);
    var i :| 0 <= i < |lines| && item == Trim(lines[i]);
    TrimIsInfix(lines[i]);
  }

  // ---- initial state

  /** `buildInitialState(project)`: the project's values, or the defaults of a
      new project (published, not featured, sort order "0", default cover). */
  function BuildInitialState(project: Option<Project>): (form: FormState)
    ensures project.None? ==>
      && form.title == "" && form.slug == "" && form.sortOrder == "0"
      && form.isPublished && !form.isFeatured
      && form.coverBackground == DEFAULT_COVER_BACKGROUND && form.coverForeground == DEFAULT_COVER_FOREGROUND
    ensures project.None? ==>
      && (forall i :: 0 <= i < 13 ==> form.details.Fields()[i] == "")
      && form.listTexts == Collections("", "", "", "", "")
    ensures project.Some? ==>
      && form.title == project.value.title && form.slug == project.value.slug
      && ParseInt(form.sortOrder) == Some(project.value.sortOrder)
      && form.isPublished == project.value.isPublished && form.isFeatured == project.value.isFeatured
      && form.coverBackground == project.value.cover.background
      && form.coverForeground == project.value.cover.foreground
    ensures project.Some? ==>
      forall i :: 0 <= i < 13 ==> form.details.Fields()[i] == project.value.details.Fields()[i].GetOr("")
    ensures project.Some? ==>
      && form.listTexts.tools == ListToText(project.value.lists.tools)
      && form.listTexts.goals == ListToText(project.value.lists.goals)
      && form.listTexts.responsibilities == ListToText(project.value.lists.responsibilities)
      && form.listTexts.highlights == ListToText(project.value.lists.highlights)
      && form.listTexts.tags == ListToText(project.value.lists.tags)
  {
    match project
    case None =>
      FormState("", "", Details("", "", "", "", "", "", "", "", "", "", "", "", ""), "0", false, true,
                DEFAULT_COVER_BACKGROUND, DEFAULT_COVER_FOREGROUND, Collections("", "", "", "", ""))
    case Some(p) =>
      IntRoundTrip(p.sortOrder);
      FormState(p.title, p.slug, p.details.Map((v: Option<string>) => v.GetOr("")), IntToString(p.sortOrder),
                p.isFeatured, p.isPublished, p.cover.background, p.cover.foreground,
                p.lists.Map(ListToText))
  }

  /** `buildMetricRows`: the metrics, or one blank row to start from. */
  function BuildMetricRows(metrics: seq<Metric>): (rows: seq<Metric>)
    ensures |rows| >= 1
    ensures metrics != [] ==> rows == metrics
    ensures metrics == [] ==> rows == [Metric("", "")]
  {
    if |metrics| > 0 then metrics else [Metric("", "")]
  }

  /** `buildApproachRows`: the steps, or one blank row to start from. */
  function BuildApproachRows(approach: seq<Approach>): (rows: seq<Approach>)
    ensures |rows| >= 1
    ensures approach != [] ==> rows == approach
    ensures approach == [] ==> rows == [Approach("", "")]
  {
    if |approach| > 0 then approach else [Approach("", "")]
  }

  // ---- the payload of `handleSubmit`

  /** `value || null`. */
  function OrNull(s: string): (r: Option<string>)
    ensures r.None? <==> s == ""
    ensures r.Some? ==> r.value == s
  {
    if s == "" then None else Some(s)
  }

  /** `Number(text) || 0`, for integer texts. */
  function NumberOrZero(text: string): (n: int)
    ensures ParseInt(text).Some? ==> n == ParseInt(text).value
    ensures ParseInt(text).None? ==> n == 0
  {
    match ParseInt(text)
    case Some(v) => v
    case None => 0
  }

  function TrimMetric(m: Metric): Metric {
    Metric(Trim(m.value), Trim(m.labelText))
  }

  predicate TrimmedMetric(m: Metric) {
    IsTrimmed(m.value) && IsTrimmed(m.labelText)
  }

  predicate CompleteMetric(m: Metric) {
    m.value != "" && m.labelText != ""
  }

  function TrimApproach(a: Approach): Approach {
    Approach(Trim(a.title), Trim(a.detail))
  }

  predicate TrimmedApproach(a: Approach) {
    IsTrimmed(a.title) && IsTrimmed(a.detail)
  }

  predicate CompleteApproach(a: Approach) {
    a.title != "" && a.detail != ""
  }

  /** Each metric trimmed on both sides, in order. */
  function TrimEachMetric(metrics: seq<Metric>): (r: seq<Metric>)
    ensures |r| == |metrics| && forall i :: 0 <= i < |metrics| ==> r[i] == TrimMetric(metrics[i])
  {
    seq(|metrics|, i requires 0 <= i < |metrics| => TrimMetric(metrics[i]))
  }

  /** Each step trimmed on both sides, in order. */
  function TrimEachApproach(approach: seq<Approach>): (r: seq<Approach>)
    ensures |r| == |approach| && forall i :: 0 <= i < |approach| ==> r[i] == TrimApproach(approach[i])
  {
    seq(|approach|, i requires 0 <= i < |approach| => TrimApproach(approach[i]))
  }

  /** The metrics sent: each trimmed on both sides, incomplete ones dropped.
      They are exactly the complete trimmed rows, in their order and with
      their repetitions; every row sent is complete and already trimmed. */
  function CleanMetrics(metrics: seq<Metric>): (r: seq<Metric>)
    ensures |r| <= |metrics|
    ensures forall i :: 0 <= i < |r| ==> CompleteMetric(r[i]) && TrimmedMetric(r[i])
    ensures r == Filter(CompleteMetric, TrimEachMetric(metrics))
    decreases |metrics|
  {
    if metrics == [] then []
    else
      assert TrimEachMetric(metrics)[1..] == TrimEachMetric(metrics[1..]);
      var m := TrimMetric(metrics[0]);
      if CompleteMetric(m) then [m] + CleanMetrics(metrics[1..]) else CleanMetrics(metrics[1..])
  }

  /** The approach steps sent: each trimmed on both sides, incomplete ones
      dropped. They are exactly the complete trimmed steps, in their order
      and with their repetitions; every step sent is complete and trimmed. */
  function CleanApproach(approach: seq<Approach>): (r: seq<Approach>)
    ensures |r| <= |approach|
    ensures forall i :: 0 <= i < |r| ==> CompleteApproach(r[i]) && TrimmedApproach(r[i])
    ensures r == Filter(CompleteApproach, TrimEachApproach(approach))
    decreases |approach|
  {
    if approach == [] then []
    else
      assert TrimEachApproach(approach)[1..] == TrimEachApproach(approach[1..]);
      var a := TrimApproach(approach[0]);
      if CompleteApproach(a) then [a] + CleanApproach(approach[1..]) else CleanApproach(approach[1..])
  }

  /** The metrics sent keep the order of the rows they come from. */
  lemma CleanMetricsInOrder(metrics: seq<Metric>)
    ensures IsSubsequence(CleanMetrics(metrics), TrimEachMetric(metrics))
  {
    FilterIsSubsequence(CompleteMetric, TrimEachMetric(metrics));
  }

  /** The steps sent keep the order of the rows they come from. */
  lemma CleanApproachInOrder(approach: seq<Approach>)
    ensures IsSubsequence(CleanApproach(approach), TrimEachApproach(approach))
  {
    FilterIsSubsequence(CompleteApproach, TrimEachApproach(approach));
  }

  /** No row that is complete once trimmed is lost. */
  lemma {:induction false} CleanMetricsKeepsComplete(metrics: seq<Metric>, i: nat)
    requires i < |metrics| && CompleteMetric(TrimMetric(metrics[i]))
    ensures TrimMetric(metrics[i]) in CleanMetrics(metrics)
  {
    if i > 0 {
      CleanMetricsKeepsComplete(metrics[1..], i - 1);
      assert metrics[1..][i - 1] == metrics[i];
    }
  }

  /** No step that is complete once trimmed is lost. */
  lemma {:induction false} CleanApproachKeepsComplete(approach: seq<Approach>, i: nat)
    requires i < |approach| && CompleteApproach(TrimApproach(approach[i]))
    ensures TrimApproach(approach[i]) in CleanApproach(approach)
  {
    if i > 0 {
      CleanApproachKeepsComplete(approach[1..], i - 1);
      assert approach[1..][i - 1] == approach[i];
    }
  }

  /** Rows already trimmed and complete are sent as they are. */
  lemma {:induction false} CleanMetricsKeepsClean(metrics: seq<Metric>)
    requires forall i :: 0 <= i < |metrics| ==> CompleteMetric(metrics[i]) && TrimmedMetric(metrics[i])
    ensures CleanMetrics(metrics) == metrics
  {
    if metrics != [] {
      TrimOfTrimmed(metrics[0].value);
      TrimOfTrimmed(metrics[0].labelText);
      CleanMetricsKeepsClean(metrics[1..]);
    }
  }

  /** Metrics sent twice through the form are cleaned once and for all. */
  lemma CleanMetricsIdempotent(metrics: seq<Metric>)
    ensures CleanMetrics(CleanMetrics(metrics)) == CleanMetrics(metrics)
  {
    CleanMetricsKeepsClean(CleanMetrics(metrics));
  }

  /** The list fields of the body: each textarea read back as a list. */
  function ListsFromText(texts: Collections<string>): (lists: Collections<Option<seq<string>>>)
    ensures lists.tools == Some(TextToList(texts.tools)) && lists.goals == Some(TextToList(texts.goals))
    ensures lists.responsibilities == Some(TextToList(texts.responsibilities))
    ensures lists.highlights == Some(TextToList(texts.highlights)) && lists.tags == Some(TextToList(texts.tags))
  {
    Collections(Some(TextToList(texts.tools)), Some(TextToList(texts.goals)), Some(TextToList(texts.responsibilities)),
                Some(TextToList(texts.highlights)), Some(TextToList(texts.tags)))
  }

  /** The body `handleSubmit` sends, read as the `ProjectInput` the API
      receives. */
  function FormPayload(form: FormState, metrics: seq<Metric>, approach: seq<Approach>, slugify: string -> string)
    : (input: ProjectInput)
    ensures input.title == Some(form.title)
    ensures input.slug == Some(if form.slug != "" then form.slug else slugify(form.title))
    ensures input.sortOrder == Some(NumberOrZero(form.sortOrder))
    ensures input.isFeatured == Some(form.isFeatured) && input.isPublished == Some(form.isPublished)
    ensures input.cover == Some(Cover(
      if form.coverBackground != "" then form.coverBackground else DEFAULT_COVER_BACKGROUND,
      if form.coverForeground != "" then form.coverForeground else DEFAULT_COVER_FOREGROUND))
    ensures input.metrics == Some(CleanMetrics(metrics)) && input.approach == Some(CleanApproach(approach))
    ensures forall i :: 0 <= i < 13 ==> input.details.Fields()[i] == OrNull(form.details.Fields()[i])
    ensures input.lists == ListsFromText(form.listTexts)
  {
    ProjectInput(
      Some(if form.slug != "" then form.slug else slugify(form.title)),
      Some(form.title),
      form.details.Map(OrNull),
      ListsFromText(form.listTexts),
      Some(CleanApproach(approach)),
      Some(CleanMetrics(metrics)),
      Some(Cover(if form.coverBackground != "" then form.coverBackground else DEFAULT_COVER_BACKGROUND,
                 if form.coverForeground != "" then form.coverForeground else DEFAULT_COVER_FOREGROUND)),
      Some(form.isFeatured),
      Some(form.isPublished),
      Some(NumberOrZero(form.sortOrder)))
  }

  /** Every item of the list survives a trip through the textarea. */
  predicate ListOfItems(xs: seq<string>) {
    forall i :: 0 <= i < |xs| ==> ListItem(xs[i])
  }

  /** Opening a project in the editor and saving it untouched sends back its
      title, slug, sort order, flags, cover, and its details with an empty
      text read as `null`. */
  lemma UntouchedFormRoundTrip(p: Project, slugify: string -> string)
    requires p.cover.background != "" && p.cover.foreground != ""
    ensures var input := FormPayload(BuildInitialState(Some(p)), [], [], slugify);
      && input.title == Some(p.title)
      && (p.slug != "" ==> input.slug == Some(p.slug))
      && input.sortOrder == Some(p.sortOrder)
      && input.isFeatured == Some(p.isFeatured) && input.isPublished == Some(p.isPublished)
      && input.cover == Some(p.cover)
      && forall i :: 0 <= i < 13 ==> input.details.Fields()[i] == ReadText(p.details.Fields()[i])
  {
    var input := FormPayload(BuildInitialState(Some(p)), [], [], slugify);
    IntRoundTrip(p.sortOrder);
    forall i | 0 <= i < 13 ensures input.details.Fields()[i] == ReadText(p.details.Fields()[i]) {
      var v := p.details.Fields()[i];
      assert input.details.Fields()[i] == OrNull(v.GetOr(""));
    }
  }

  /** Saving an untouched project sends back each of its five lists, as long
      as every item is non-empty, trimmed and on one line. */
  lemma UntouchedListsRoundTrip(p: Project, slugify: string -> string)
    requires ListOfItems(p.lists.tools) && ListOfItems(p.lists.goals) && ListOfItems(p.lists.responsibilities)
    requires ListOfItems(p.lists.highlights) && ListOfItems(p.lists.tags)
    ensures FormPayload(BuildInitialState(Some(p)), [], [], slugify).lists
      == Collections(Some(p.lists.tools), Some(p.lists.goals), Some(p.lists.responsibilities),
                     Some(p.lists.highlights), Some(p.lists.tags))
  {
    ListTextRoundTrip(p.lists.tools);
    ListTextRoundTrip(p.lists.goals);
    ListTextRoundTrip(p.lists.responsibilities);
    ListTextRoundTrip(p.lists.highlights);
    ListTextRoundTrip(p.lists.tags);
  }

  /** A blank title reaches the API as a missing title, which it refuses. */
  lemma BlankTitleRefused(form: FormState, metrics: seq<Metric>, approach: seq<Approach>, slugify: string -> string)
    requires Trim(form.title) == ""
    ensures TitleMissing(FormPayload(form, metrics, approach, slugify))
  {
  }

  // ---- the editor's state and handlers

  /** Where `handleSubmit` sends the form: a new project, or the one edited. */
  datatype Endpoint = CreateEndpoint | UpdateEndpoint(id: Id)

  /** The server's answer to the save request: success with the created
      project's id when there is one, or failure with the error text when
      the body carries one. */
  datatype SaveOutcome = Saved(createdId: Option<Id>) | SaveFailed(error: Option<string>)

  /** What one submit did: where it sent which body, and where it navigates. */
  datatype Submission = Submission(endpoint: Endpoint, body: ProjectInput, redirectTo: Option<Id>)

  /** The `ProjectForm` component: the edited project (if any) and its state. */
  class Editor {
    const editing: Option<Project>
    const slugify: string -> string
    var form: FormState
    var metrics: seq<Metric>
    var approach: seq<Approach>
    var status: Option<string>
    var isSaving: bool

    constructor (editing: Option<Project>, slugify: string -> string)
      ensures this.editing == editing && this.slugify == slugify
      ensures form == BuildInitialState(editing)
      ensures metrics == BuildMetricRows(if editing.Some? then editing.value.metrics else [])
      ensures approach == BuildApproachRows(if editing.Some? then editing.value.approach else [])
      ensures status.None? && !isSaving
    {
      this.editing := editing;
      this.slugify := slugify;
      form := BuildInitialState(editing);
      metrics := BuildMetricRows(if editing.Some? then editing.value.metrics else []);
      approach := BuildApproachRows(if editing.Some? then editing.value.approach else []);
      status := None;
      isSaving := false;
    }

    /** `handleMetricChange(index, "value" | "label", value)`. */
    method HandleMetricChange(index: int, setValue: bool, value: string)
      modifies this
      ensures metrics == UpdateAt(old(metrics), index,
        (m: Metric) => if setValue then m.(value := value) else m.(labelText := value))
      ensures |metrics| == |old(metrics)|
      ensures 0 <= index < |metrics| ==>
        metrics[index] == if setValue then old(metrics)[index].(value := value) else old(metrics)[index].(labelText := value)
      ensures forall j :: 0 <= j < |metrics| && j != index ==> metrics[j] == old(metrics)[j]
      ensures form == old(form) && approach == old(approach) && status == old(status) && isSaving == old(isSaving)
    {
      metrics := UpdateAt(metrics, index, (m: Metric) => if setValue then m.(value := value) else m.(labelText := value));
    }

    /** `handleApproachChange(index, "title" | "detail", value)`. */
    method HandleApproachChange(index: int, setTitle: bool, value: string)
      modifies this
      ensures approach == UpdateAt(old(approach), index,
        (a: Approach) => if setTitle then a.(title := value) else a.(detail := value))
      ensures |approach| == |old(approach)|
      ensures 0 <= index < |approach| ==>
        approach[index] == if setTitle then old(approach)[index].(title := value) else old(approach)[index].(detail := value)
      ensures forall j :: 0 <= j < |approach| && j != index ==> approach[j] == old(approach)[j]
      ensures form == old(form) && metrics == old(metrics) && status == old(status) && isSaving == old(isSaving)
    {
      approach := UpdateAt(approach, index, (a: Approach) => if setTitle then a.(title := value) else a.(detail := value));
    }

    /** `addMetric`: one blank row at the end. */
    method AddMetric()
      modifies this
      ensures metrics == old(metrics) + [Metric("", "")]
      ensures form == old(form) && approach == old(approach) && status == old(status) && isSaving == old(isSaving)
    {
      metrics := metrics + [Metric("", "")];
    }

    /** `removeMetric(index)`. */
    method RemoveMetric(index: int)
      modifies this
      ensures metrics == RemoveAt(old(metrics), index)
      ensures form == old(form) && approach == old(approach) && status == old(status) && isSaving == old(isSaving)
    {
      metrics := RemoveAt(metrics, index);
    }

    /** `addApproach`: one blank step at the end. */
    method AddApproach()
      modifies this
      ensures approach == old(approach) + [Approach("", "")]
      ensures form == old(form) && metrics == old(metrics) && status == old(status) && isSaving == old(isSaving)
    {
      approach := approach + [Approach("", "")];
    }

    /** `removeApproach(index)`. */
    method RemoveApproach(index: int)
      modifies this
      ensures approach == RemoveAt(old(approach), index)
      ensures form == old(form) && metrics == old(metrics) && status == old(status) && isSaving == old(isSaving)
    {
      approach := RemoveAt(approach, index);
    }

    /** `handleSubmit`: build the body, send it to the create or the update
        endpoint, and report the outcome in `status`; `isSaving` is cleared
        whatever happens. A new project that was saved opens its own page. */
    method HandleSubmit(outcome: SaveOutcome) returns (sub: Submission)
      modifies this
      ensures sub.body == FormPayload(form, metrics, approach, slugify)
      ensures sub.endpoint == if editing.Some? then UpdateEndpoint(editing.value.id) else CreateEndpoint
      ensures outcome.Saved? ==> status == Some(SAVED)
      ensures outcome.SaveFailed? ==> status == Some(outcome.error.GetOr(SAVE_FAILED))
      ensures sub.redirectTo.Some? <==> editing.None? && outcome.Saved? && outcome.createdId.Some?
      ensures sub.redirectTo.Some? ==> sub.redirectTo == outcome.createdId
      ensures !isSaving
      ensures form == old(form) && metrics == old(metrics) && approach == old(approach)
    {
      var endpoint := if editing.Some? then UpdateEndpoint(editing.value.id) else CreateEndpoint;
      isSaving := true;
      var redirectTo: Option<Id> := None;
      if outcome.Saved? {
        status := Some(SAVED);
        if editing.None? && outcome.createdId.Some? {
          redirectTo := outcome.createdId;
        }
      } else {
        status := Some(outcome.error.GetOr(SAVE_FAILED));
      }
      isSaving := false;
      var body := FormPayload(form, metrics, approach, slugify);
      sub := Submission(endpoint, body, redirectTo);
    }
  }
}
