/** The admin engagement report of src/app/api/admin/engagement/route.ts:
    the events of the last `days` days reduced to per-slug counters and
    distinct-session counts, one entry per slug in order of first appearance. */
module EngagementAggregator {

  import opened Wrappers
  import opened AdminAuth
  import opened EngagementRecorder
  import opened Seqs

  /** One entry of the report. */
  datatype Totals = Totals(slug: string, total: nat, views: nat, inquiries: nat, clicks: nat, uniqueSessions: nat)

  /** The answer: a JSON error with its status, the report, or an exception
      the handler does not catch (which the framework answers with 500). */
  datatype Report =
    | ReportError(status: int, error: string)
    | Report(windowDays: int, totals: seq<Totals>)
    | Uncaught(error: string)

  const DEFAULT_DAYS: int := 30
  const DAY_MS: int := 24 * 60 * 60 * 1000

  /** A JavaScript `Date` holds at most 100 000 000 days either side of the
      epoch; `toISOString` on a time beyond that throws this `RangeError`. */
  const MAX_TIME_MS: int := 100_000_000 * DAY_MS
  const INVALID_TIME: string := "Invalid time value"

  /** A time, in milliseconds since the epoch, that a `Date` can hold. */
  predicate DateInRange(t: int) {
    -MAX_TIME_MS <= t <= MAX_TIME_MS
  }

  /** The window: the `days` parameter when it is a number greater than 0,
      otherwise 30 (absent and non-numeric parameters are `None`). */
  function WindowDays(days: Option<int>): (d: int)
    ensures d > 0
    ensures days.Some? && days.value > 0 ==> d == days.value
    ensures days.None? || days.value <= 0 ==> d == DEFAULT_DAYS
  {
    if days.Some? && days.value > 0 then days.value else DEFAULT_DAYS
  }

  /** The cut-off `Date.now() - days * 24 * 60 * 60 * 1000`. */
  function Cutoff(days: Option<int>, now: int): (since: int)
    ensures since < now
    ensures days.Some? && days.value > 0 ==> since == now - days.value * DAY_MS
  {
    now - WindowDays(days) * DAY_MS
  }

  /** With a clock at or after the epoch, every window of at most 100 000 000
      days has a cut-off a `Date` can hold, and every window of more than
      200 000 000 days has one it cannot. */
  lemma CutoffRange(days: Option<int>, now: int)
    requires 0 <= now <= MAX_TIME_MS
    ensures WindowDays(days) <= 100_000_000 ==> DateInRange(Cutoff(days, now))
    ensures WindowDays(days) > 200_000_000 ==> !DateInRange(Cutoff(days, now))
  {
  }

  /** The `created_at >= since` condition of the query. */
  function Since(since: int): EventRow -> bool {
    (e: EventRow) => e.createdAt >= since
  }

  /** The rows the `created_at >= since` query returns: the log filtered by
      that condition, in log order and with its repetitions. */
  function InWindow(log: seq<EventRow>, since: int): (rows: seq<EventRow>)
    ensures |rows| <= |log|
    ensures forall i :: 0 <= i < |rows| ==> rows[i] in log && rows[i].createdAt >= since
    ensures forall e :: e in log && e.createdAt >= since ==> e in rows
    ensures rows == Filter(Since(since), log)
    decreases |log|
  {
    if log == [] then []
    else if log[0].createdAt >= since then [log[0]] + InWindow(log[1..], since)
    else InWindow(log[1..], since)
  }

  /** The rows returned appear in the log in the same order. */
  lemma InWindowInOrder(log: seq<EventRow>, since: int)
    ensures IsSubsequence(InWindow(log, since), log)
  {
    FilterIsSubsequence(Since(since), log);
  }

  /** A session id JavaScript treats as truthy. */
  predicate HasSession(e: EventRow) {
    e.sessionId.Some? && e.sessionId.value != ""
  }

  /** Whether an event counts towards `slug`, and towards the type `kind`
      when one is given. */
  predicate Counts(e: EventRow, slug: string, kind: Option<string>) {
    e.projectSlug == slug && (kind.None? || e.eventType == kind.value)
  }

  /** The number of events that count towards `slug` (and `kind`). */
  function Count(rows: seq<EventRow>, slug: string, kind: Option<string>): (n: nat)
    ensures n <= |rows|
    decreases |rows|
  {
    if rows == [] then 0
    else Count(rows[..|rows| - 1], slug, kind) + (if Counts(rows[|rows| - 1], slug, kind) then 1 else 0)
  }

  /** The distinct non-empty session ids among the events of `slug`. */
  function Sessions(rows: seq<EventRow>, slug: string): set<string> {
    set i | 0 <= i < |rows| && rows[i].projectSlug == slug && HasSession(rows[i]) :: rows[i].sessionId.value
  }

  /** Some event carries `slug`. */
  predicate Occurs(rows: seq<EventRow>, slug: string) {
    exists i :: 0 <= i < |rows| && rows[i].projectSlug == slug
  }

  /** An event occurs in a log extended by one event iff it occurs in the
      shorter log or is the new event's slug. */
  lemma OccursStep(rows: seq<EventRow>, n: nat)
    requires n < |rows|
    ensures forall s :: Occurs(rows[..n + 1], s) <==> Occurs(rows[..n], s) || rows[n].projectSlug == s
  {
    var a, b := rows[..n + 1], rows[..n];
    forall s | Occurs(a, s) ensures Occurs(b, s) || rows[n].projectSlug == s {
      var i :| 0 <= i < |a| && a[i].projectSlug == s;
      if i < n { assert b[i] == a[i]; }
    }
    forall s | Occurs(b, s) ensures Occurs(a, s) {
      var i :| 0 <= i < |b| && b[i].projectSlug == s;
      assert a[i] == b[i];
    }
    assert a[n] == rows[n];
  }

  /** The distinct non-empty slugs, in order of first appearance. */
  function FirstAppearance(rows: seq<EventRow>): (slugs: seq<string>)
    ensures forall k :: 0 <= k < |slugs| ==> slugs[k] != ""
    ensures forall j, k :: 0 <= j < k < |slugs| ==> slugs[j] != slugs[k]
    ensures forall s :: s in slugs <==> s != "" && Occurs(rows, s)
    decreases |rows|
  {
    if rows == [] then []
    else
      var n := |rows| - 1;
      var prev := FirstAppearance(rows[..n]);
      var s := rows[n].projectSlug;
      OccursStep(rows, n);
      assert rows[..n + 1] == rows;
      if s != "" && s !in prev then prev + [s] else prev
  }

  /** The counters of `slug`, before the session count is filled in. */
  function Counters(rows: seq<EventRow>, slug: string): Totals {
    Totals(slug, Count(rows, slug, None), Count(rows, slug, Some("view")), Count(rows, slug, Some("inquiry")),
           Count(rows, slug, Some("click")), 0)
  }

  /** The entry the report holds for `slug`. */
  function Entry(rows: seq<EventRow>, slug: string): Totals {
    Counters(rows, slug).(uniqueSessions := |Sessions(rows, slug)|)
  }

  /** The report over `rows`: one entry per distinct non-empty slug, in order
      of first appearance. */
  function Summary(rows: seq<EventRow>): (totals: seq<Totals>)
    ensures |totals| == |FirstAppearance(rows)|
    ensures forall k :: 0 <= k < |totals| ==> totals[k] == Entry(rows, FirstAppearance(rows)[k])
  {
    var slugs := FirstAppearance(rows);
    seq(|slugs|, k requires 0 <= k < |slugs| => Entry(rows, slugs[k]))
  }

  // ---- how each counter grows by one event

  lemma CountStep(rows: seq<EventRow>, i: nat, slug: string, kind: Option<string>)
    requires i < |rows|
    ensures Count(rows[..i + 1], slug, kind) == Count(rows[..i], slug, kind) + (if Counts(rows[i], slug, kind) then 1 else 0)
  {
    assert rows[..i + 1][..i] == rows[..i];
  }

  /** One more event bumps the counters of its own slug and no others. */
  lemma CountersStep(rows: seq<EventRow>, i: nat, slug: string)
    requires i < |rows|
    ensures Counters(rows[..i + 1], slug) ==
      if rows[i].projectSlug == slug then Bump(Counters(rows[..i], slug), rows[i].eventType) else Counters(rows[..i], slug)
  {
    CountStep(rows, i, slug, None);
    CountStep(rows, i, slug, Some("view"));
    CountStep(rows, i, slug, Some("inquiry"));
    CountStep(rows, i, slug, Some("click"));
  }

  lemma SessionsStep(rows: seq<EventRow>, i: nat, slug: string)
    requires i < |rows|
    ensures Sessions(rows[..i + 1], slug) ==
      Sessions(rows[..i], slug) + (if rows[i].projectSlug == slug && HasSession(rows[i]) then {rows[i].sessionId.value} else {})
  {
    var a, b := rows[..i + 1], rows[..i];
    forall x | x in Sessions(a, slug)
      ensures x in Sessions(b, slug) || (rows[i].projectSlug == slug && HasSession(rows[i]) && x == rows[i].sessionId.value)
    {
      var j :| 0 <= j < |a| && a[j].projectSlug == slug && HasSession(a[j]) && a[j].sessionId.value == x;
      if j < i { assert a[j] == b[j]; }
    }
    forall x | x in Sessions(b, slug) ensures x in Sessions(a, slug) {
      var j :| 0 <= j < |b| && b[j].projectSlug == slug && HasSession(b[j]) && b[j].sessionId.value == x;
      assert a[j] == b[j];
    }
    if rows[i].projectSlug == slug && HasSession(rows[i]) {
      assert a[i] == rows[i];
    }
  }

  lemma FirstAppearanceStep(rows: seq<EventRow>, i: nat)
    requires i < |rows|
    ensures FirstAppearance(rows[..i + 1]) ==
      var prev := FirstAppearance(rows[..i]);
      if rows[i].projectSlug != "" && rows[i].projectSlug !in prev then prev + [rows[i].projectSlug] else prev
  {
    assert rows[..i + 1][..i] == rows[..i];
  }

  /** A slug that does not occur is counted zero times. */
  lemma {:induction false} CountAbsent(rows: seq<EventRow>, slug: string, kind: Option<string>)
    requires forall i :: 0 <= i < |rows| ==> rows[i].projectSlug != slug
    ensures Count(rows, slug, kind) == 0
    decreases |rows|
  {
    if rows != [] {
      var n := |rows| - 1;
      assert forall i :: 0 <= i < n ==> rows[..n][i] == rows[i];
      CountAbsent(rows[..n], slug, kind);
    }
  }

  // ---- properties of the report

  /** Each typed counter counts a subset of the events of its slug, and those
      subsets are disjoint, so `views + inquiries + clicks <= total`. */
  lemma {:induction false} TypedCountsBounded(rows: seq<EventRow>, slug: string)
    ensures Count(rows, slug, Some("view")) + Count(rows, slug, Some("inquiry")) + Count(rows, slug, Some("click"))
            <= Count(rows, slug, None)
    decreases |rows|
  {
    if rows != [] {
      TypedCountsBounded(rows[..|rows| - 1], slug);
    }
  }

  /** Each event adds at most one session id, so `uniqueSessions <= total`. */
  lemma {:induction false} SessionsBounded(rows: seq<EventRow>, slug: string)
    ensures |Sessions(rows, slug)| <= Count(rows, slug, None)
    decreases |rows|
  {
    if rows != [] {
      var n := |rows| - 1;
      SessionsBounded(rows[..n], slug);
      SessionsStep(rows, n, slug);
      CountStep(rows, n, slug, None);
      assert rows[..n + 1] == rows;
    }
  }

  /** Every entry of the report: a slug that occurs, at least one event, the
      typed counters within the total and the distinct sessions within the
      total. */
  lemma SummaryBounds(rows: seq<EventRow>)
    ensures forall t :: t in Summary(rows) ==>
      && t.views + t.inquiries + t.clicks <= t.total
      && t.uniqueSessions <= t.total
      && t.total >= 1
      && t.total == Count(rows, t.slug, None)
  {
    forall t | t in Summary(rows)
      ensures && t.views + t.inquiries + t.clicks <= t.total && t.uniqueSessions <= t.total
              && t.total >= 1 && t.total == Count(rows, t.slug, None)
    {
      var k :| 0 <= k < |Summary(rows)| && Summary(rows)[k] == t;
      TypedCountsBounded(rows, t.slug);
      SessionsBounded(rows, t.slug);
      assert t.slug in FirstAppearance(rows);
      var i :| 0 <= i < |rows| && rows[i].projectSlug == t.slug;
      CountPositive(rows, t.slug, i);
    }
  }

  /** A slug that occurs at index `i` is counted at least once. */
  lemma {:induction false} CountPositive(rows: seq<EventRow>, slug: string, i: nat)
    requires i < |rows| && rows[i].projectSlug == slug
    ensures Count(rows, slug, None) >= 1
    decreases |rows|
  {
    var n := |rows| - 1;
    if i < n {
      assert rows[..n][i] == rows[i];
      CountPositive(rows[..n], slug, i);
    }
  }

  /** An event without a slug changes no entry and adds none. */
  lemma {:induction false} SluglessEventIgnored(rows: seq<EventRow>, e: EventRow)
    requires e.projectSlug == ""
    ensures Summary(rows + [e]) == Summary(rows)
  {
    var r := rows + [e];
    var n := |rows|;
    assert r[..n] == rows;
    assert r[n] == e;
    assert FirstAppearance(r) == FirstAppearance(rows) by {
      FirstAppearanceStep(r, n);
      assert r[..n + 1] == r;
    }
    forall k | 0 <= k < |FirstAppearance(rows)|
      ensures Entry(r, FirstAppearance(rows)[k]) == Entry(rows, FirstAppearance(rows)[k])
    {
      var s := FirstAppearance(rows)[k];
      CountStep(r, n, s, None);
      CountStep(r, n, s, Some("view"));
      CountStep(r, n, s, Some("inquiry"));
      CountStep(r, n, s, Some("click"));
      SessionsStep(r, n, s);
      assert r[..n + 1] == r;
    }
  }

  // ---- the three passes of the handler

  /** What the first pass has built after the events `rows`: the slugs in
      order of first appearance, each with its counters, sessions not yet set. */
  ghost predicate FirstPassDone(rows: seq<EventRow>, order: seq<string>, bySlug: map<string, Totals>) {
    && order == FirstAppearance(rows)
    && (forall s :: s in bySlug <==> s in order)
    && (forall s :: s in bySlug ==> bySlug[s] == Counters(rows, s))
  }

  /** One more event bumps its own slug's counters and no other slug's. */
  lemma CountersAfter(rows: seq<EventRow>, i: nat)
    requires i < |rows|
    ensures forall s :: Counters(rows[..i + 1], s) ==
                        if s == rows[i].projectSlug then Bump(Counters(rows[..i], s), rows[i].eventType)
                        else Counters(rows[..i], s)
  {
    forall s ensures Counters(rows[..i + 1], s) ==
      if s == rows[i].projectSlug then Bump(Counters(rows[..i], s), rows[i].eventType) else Counters(rows[..i], s)
    {
      CountersStep(rows, i, s);
    }
  }

  /** A slugless event leaves the first pass's state as it is. */
  lemma FirstPassSkip(rows: seq<EventRow>, i: nat, order: seq<string>, bySlug: map<string, Totals>)
    requires i < |rows| && rows[i].projectSlug == "" && FirstPassDone(rows[..i], order, bySlug)
    ensures FirstPassDone(rows[..i + 1], order, bySlug)
  {
    FirstAppearanceStep(rows, i);
    CountersAfter(rows, i);
  }

  /** An event of a slug already seen bumps that slug's entry. */
  lemma FirstPassBump(rows: seq<EventRow>, i: nat, order: seq<string>, bySlug: map<string, Totals>)
    requires i < |rows| && rows[i].projectSlug in bySlug && FirstPassDone(rows[..i], order, bySlug)
    ensures FirstPassDone(rows[..i + 1], order,
                          bySlug[rows[i].projectSlug := Bump(bySlug[rows[i].projectSlug], rows[i].eventType)])
  {
    FirstAppearanceStep(rows, i);
    CountersAfter(rows, i);
  }

  /** An event of a new slug appends it with its first event counted. */
  lemma FirstPassNew(rows: seq<EventRow>, i: nat, order: seq<string>, bySlug: map<string, Totals>)
    requires i < |rows| && rows[i].projectSlug != "" && rows[i].projectSlug !in bySlug
    requires FirstPassDone(rows[..i], order, bySlug)
    ensures FirstPassDone(rows[..i + 1], order + [rows[i].projectSlug],
                          bySlug[rows[i].projectSlug := Bump(Totals(rows[i].projectSlug, 0, 0, 0, 0, 0), rows[i].eventType)])
  {
    var slug := rows[i].projectSlug;
    FirstAppearanceStep(rows, i);
    CountersAfter(rows, i);
    CountAbsent(rows[..i], slug, None);
    CountAbsent(rows[..i], slug, Some("view"));
    CountAbsent(rows[..i], slug, Some("inquiry"));
    CountAbsent(rows[..i], slug, Some("click"));
    assert Totals(slug, 0, 0, 0, 0, 0) == Counters(rows[..i], slug);
  }

  /** The first pass: create an entry for each new slug and count the event. */
  method CountEvents(rows: seq<EventRow>) returns (order: seq<string>, bySlug: map<string, Totals>)
    ensures FirstPassDone(rows, order, bySlug)
  {
    order := [];
    bySlug := map[];
    var i := 0;
    while i < |rows|
      invariant 0 <= i <= |rows|
      invariant FirstPassDone(rows[..i], order, bySlug)
    {
      var e := rows[i];
      var slug := e.projectSlug;
      if slug != "" {
        if slug !in bySlug {
          FirstPassNew(rows, i, order, bySlug);
          order := order + [slug];
          bySlug := bySlug[slug := Totals(slug, 0, 0, 0, 0, 0)];
        } else {
          FirstPassBump(rows, i, order, bySlug);
        }
        bySlug := bySlug[slug := Bump(bySlug[slug], e.eventType)];
      } else {
        FirstPassSkip(rows, i, order, bySlug);
      }
      i := i + 1;
    }
    assert rows[..i] == rows;
  }

  /** `record.total += 1` and the matching typed counter, if any. */
  function Bump(t: Totals, eventType: string): (u: Totals)
    ensures u.slug == t.slug && u.total == t.total + 1 && u.uniqueSessions == t.uniqueSessions
    ensures u.views == t.views + (if eventType == "view" then 1 else 0)
    ensures u.inquiries == t.inquiries + (if eventType == "inquiry" then 1 else 0)
    ensures u.clicks == t.clicks + (if eventType == "click" then 1 else 0)
  {
    var t := t.(total := t.total + 1);
    match eventType
    case "view" => t.(views := t.views + 1)
    case "inquiry" => t.(inquiries := t.inquiries + 1)
    case "click" => t.(clicks := t.clicks + 1)
    case _ => t
  }

  /** What the second pass has built after the events `rows`: for each slug
      with a session, its distinct session ids; `keys` lists those slugs in
      insertion order. */
  ghost predicate SecondPassDone(rows: seq<EventRow>, keys: seq<string>, sessions: map<string, set<string>>) {
    && (forall s :: s in sessions <==> s in keys)
    && (forall j, k :: 0 <= j < k < |keys| ==> keys[j] != keys[k])
    && (forall s :: s in sessions ==> s != "" && sessions[s] == Sessions(rows, s))
    && (forall s :: s != "" && s !in sessions ==> Sessions(rows, s) == {})
  }

  /** The second pass: collect the session ids of each slug. */
  method CollectSessions(rows: seq<EventRow>) returns (keys: seq<string>, sessions: map<string, set<string>>)
    ensures SecondPassDone(rows, keys, sessions)
  {
    keys := [];
    sessions := map[];
    var i := 0;
    while i < |rows|
      invariant 0 <= i <= |rows|
      invariant SecondPassDone(rows[..i], keys, sessions)
    {
      var e := rows[i];
      forall s ensures Sessions(rows[..i + 1], s) ==
        Sessions(rows[..i], s) + (if e.projectSlug == s && HasSession(e) then {e.sessionId.value} else {})
      {
        SessionsStep(rows, i, s);
      }
      if e.projectSlug != "" && HasSession(e) {
        if e.projectSlug !in sessions {
          keys := keys + [e.projectSlug];
          sessions := sessions[e.projectSlug := {}];
        }
        sessions := sessions[e.projectSlug := sessions[e.projectSlug] + {e.sessionId.value}];
      }
      i := i + 1;
    }
    assert rows[..i] == rows;
  }

  /** The third pass: write each slug's session count into its entry. */
  method SetUniqueSessions(keys: seq<string>, sessions: map<string, set<string>>, bySlug: map<string, Totals>)
    returns (result: map<string, Totals>)
    requires forall s :: s in sessions <==> s in keys
    requires forall j, k :: 0 <= j < k < |keys| ==> keys[j] != keys[k]
    ensures result.Keys == bySlug.Keys
    ensures forall s :: s in result ==>
      result[s] == if s in sessions then bySlug[s].(uniqueSessions := |sessions[s]|) else bySlug[s]
  {
    result := bySlug;
    var j := 0;
    while j < |keys|
      invariant 0 <= j <= |keys|
      invariant result.Keys == bySlug.Keys
      invariant forall s :: s in result ==>
        result[s] == if s in keys[..j] then bySlug[s].(uniqueSessions := |sessions[s]|) else bySlug[s]
    {
      var slug := keys[j];
      assert slug !in keys[..j];
      if slug in result {
        result := result[slug := result[slug].(uniqueSessions := |sessions[slug]|)];
      }
      assert keys[..j + 1] == keys[..j] + [slug];
      j := j + 1;
    }
    assert keys[..j] == keys;
  }

  /** The reduction of the handler: three passes over the rows, then the
      entries in the map's insertion order. */
  method Aggregate(rows: seq<EventRow>) returns (totals: seq<Totals>)
    ensures totals == Summary(rows)
  {
    var order, bySlug := CountEvents(rows);
    var keys, sessions := CollectSessions(rows);
    var result := SetUniqueSessions(keys, sessions, bySlug);
    totals := seq(|order|, k requires 0 <= k < |order| => result[order[k]]);
    forall k | 0 <= k < |order| ensures totals[k] == Entry(rows, order[k]) {
      var s := order[k];
      assert s in bySlug && s != "";
    }
  }

  /** `GET /api/admin/engagement`: the admin guard, then the cut-off (which
      throws, uncaught, when it is outside the `Date` range), then the query
      for the events since the cut-off (with `storeError` the database's
      answer), then the reduction. */
  method Get(log: seq<EventRow>, authorization: Option<string>, adminEmail: Option<string>,
             getUser: string -> UserLookup, days: Option<int>, now: int, storeError: Option<string>)
    returns (resp: Report)
    ensures RequireAdmin(authorization, adminEmail, getUser).Failure? ==>
      resp == ReportError(RequireAdmin(authorization, adminEmail, getUser).error.status,
                          RequireAdmin(authorization, adminEmail, getUser).error.message)
    ensures RequireAdmin(authorization, adminEmail, getUser).Success? && !DateInRange(Cutoff(days, now)) ==>
      resp == Uncaught(INVALID_TIME)
    ensures RequireAdmin(authorization, adminEmail, getUser).Success? && DateInRange(Cutoff(days, now))
            && storeError.Some? ==>
      resp == ReportError(500, storeError.value)
    ensures RequireAdmin(authorization, adminEmail, getUser).Success? && DateInRange(Cutoff(days, now))
            && storeError.None? ==>
      resp == Report(WindowDays(days), Summary(InWindow(log, Cutoff(days, now))))
  {
    var auth := RequireAdmin(authorization, adminEmail, getUser);
    if auth.Failure? {
      return ReportError(auth.error.status, auth.error.message);
    }
    var windowDays := WindowDays(days);
    var since := now - windowDays * DAY_MS;
    if !DateInRange(since) {
      return Uncaught(INVALID_TIME);
    }
    if storeError.Some? {
      return ReportError(500, storeError.value);
    }
    var totals := Aggregate(InWindow(log, since));
    resp := Report(windowDays, totals);
  }
}
