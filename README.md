# UX portfolio site: a verified model of its logic

This is a Dafny model of the server and client logic behind a UX-design
portfolio site. The site publishes case studies ("projects"), records
engagement events, and forwards contact inquiries. Each source file of the
core has one module:

- **ProjectModel** and **ProjectStore** model the `projects` repository (`src/lib/projects.ts`).
  - The table is a `map` from id to row, held in a `Store` class.
  - Each SQL statement is a method on that class.
  - `ensureUniqueSlug` is its probing loop.
  - The write-side normaliser (`buildPayload`) and the read-side normalisers
    (`normalizeRow`, `parseJson`, `toBoolean`) are pure functions.
- **AdminAuth** models the admin guard `requireAdmin`. It is an ordered decision
  that returns 401, 500, 401, 403 or ok, with the identity provider as a function
  parameter.
- **AdminProjectsRoute** models the admin `GET`/`POST` handlers, which run the
  guard before the store.
- **EngagementRecorder** models `POST /api/engagement`. It validates one event
  and appends one row to the event log.
- **EngagementAggregator** models `GET /api/admin/engagement`.
  - It defaults the day window.
  - It reduces the events in three passes into per-slug totals and
    distinct-session counts.
  - It is proved equal to a functional summary of the log.
- **EngagementClient** models the browser side:
  - the session-id latch over `localStorage`;
  - `trackEngagement`'s guard and its choice of transport;
  - the send-once latch of the tracker component.
- **ProjectForm** models the admin editor:
  - converting text to a list and back;
  - the initial state;
  - the row-editing handlers;
  - the body that `handleSubmit` sends.
- **WorkGallery** models the public gallery: the query match, the category and
  top-6 tag lists, the stats, the filtered list and the featured project.
- **AdminDashboard** models the dashboard:
  - scrubbing and shape-checking the e-mail address;
  - the published and featured counts;
  - the last-wins engagement lookup;
  - the sign-in handlers.
- **InquiriesRoute** models `POST /api/inquiries`: validate, insert, then notify.
- **SendInquiryEmail** models the e-mail edge function: ordered request checks,
  the subject and the HTML body.
- **Text**, **Seqs** and **Wrappers** are support modules:
  - JavaScript's white-space `trim` and ASCII `toLowerCase`;
  - `includes`, `split` and `join`;
  - decimal rendering;
  - `filter` and the row edits;
  - `Option` and `Result`.

The database, the identity provider, the e-mail provider, `slugify`, the JSON
codec, the clock and random ids are all parameters of the operations.

## Model

| member | source | states |
|---|---|---|
| ProjectModel.Clean | src/lib/projects.ts:145-146 | absent or empty becomes null; otherwise the value is trimmed and no longer than the input |
| ProjectModel.ReadText | src/lib/projects.ts:115-118 | a falsy column reads as null; a non-empty text reads back unchanged |
| ProjectModel.ParseJson | src/lib/projects.ts:94-104 | null or an undecodable text gives the fallback; an already-decoded value is kept; decodable text gives its decoding |
| ProjectModel.ToBoolean | src/lib/projects.ts:106-108 | only `true`, `"t"` and `1` read as true |
| ProjectModel.BaseSlug | src/lib/projects.ts:244-245 | `slugify` of the trimmed explicit slug when it is non-blank, else `slugify(title)` |
| ProjectModel.BuildPayload | src/lib/projects.ts:144-176 | the title is trimmed; each detail is `clean`ed; the defaults are FALLBACK_COVER, published true, featured false and sort order 0 |
| ProjectModel.NormalizeRow | src/lib/projects.ts:110-142 | id and slug are copied; published is `toBoolean` of its column |
| ProjectModel.CleanThenRead | src/lib/projects.ts:145-146 | writing then reading a text field gives its trimmed value, or null; a whitespace-only value reads back as null |
| ProjectModel.WriteThenRead | src/lib/projects.ts:110-176 | with a round-tripping codec, what `buildPayload` writes `normalizeRow` reads back: the title, every detail, the collections in order, the cover and the defaults |
| ProjectStore.CandidateInjective | src/lib/projects.ts:194-195 | distinct probe counts try distinct slugs (suffixes never accumulate) |
| ProjectStore.ProbeStep | src/lib/projects.ts:183-196 | one more collision keeps every tried slug taken and strictly shrinks the untried taken slugs (the termination measure) |
| ProjectStore.ProbeFound | src/lib/projects.ts:183-196 | the first free candidate after `n` taken ones is the smallest free slug |
| ProjectStore.SmallestFreeSlugIsUnique | src/lib/projects.ts:178-197 | the probe's answer is determined by the table, the base and the excluded id |
| ProjectStore.ResavedSlugHasNoSuffix | src/lib/projects.ts:300-301 | excluding its own id, a project re-saved under its current slug keeps it unsuffixed |
| ProjectStore.InsertKeepsSlugsUnique | src/lib/projects.ts:245-260 | inserting a row under a free slug keeps slugs unique |
| ProjectStore.ReplaceKeepsSlugsUnique | src/lib/projects.ts:301-334 | rewriting a row under a slug free of other rows keeps slugs unique |
| ProjectStore.RankedBeforeTotalPreorder | src/lib/projects.ts:210 | the `featured desc, sort_order desc, created_at desc` order is total and transitive |
| ProjectStore.ListingKeys | src/lib/projects.ts:204-214 | listed projects are exactly the eligible rows (published only, or all), each normalised |
| ProjectStore.InsertPos | src/lib/projects.ts:210 | the insertion point follows every entry the project may not precede |
| ProjectStore.InsertKeepsRanked | src/lib/projects.ts:210 | insertion keeps a list ranked |
| ProjectStore.InsertIds | src/lib/projects.ts:210 | insertion adds exactly the new id |
| ProjectStore.InsertDistinct | src/lib/projects.ts:210 | inserting a new id keeps ids distinct |
| ProjectStore.SortRanked | src/lib/projects.ts:210 | the result is ranked, has distinct ids, and holds exactly the listed projects |
| ProjectStore.PrefixKeeps | src/lib/projects.ts:207-210 | a `LIMIT` prefix stays ranked, distinct and drawn from the listing |
| ProjectStore.TopOfRanked | src/lib/projects.ts:207-210 | every entry kept by the limit ranks before every entry dropped |
| ProjectStore.SelectRanked | src/lib/projects.ts:205-210 | ranked and distinct; all listed projects when the limit is absent or 0; otherwise min(limit, count) of them, each ranking before every dropped one |
| ProjectStore.Store.EnsureUniqueSlug | src/lib/projects.ts:178-197 | returns the smallest free slug among `base`, `base-1`, `base-2`, … ignoring `excludeId` |
| ProjectStore.Store.GetProjects | src/lib/projects.ts:199-215 | `publishedOnly` defaults to true; the result is ranked, distinct and drawn from the eligible rows; all of them unless the limit is truthy |
| ProjectStore.Store.GetProjectBySlug | src/lib/projects.ts:217-229 | null iff no row holds the slug with the required publication state; a result holds the slug and is published when `publishedOnly` |
| ProjectStore.Store.GetProjectById | src/lib/projects.ts:231-237 | null iff the id is absent, else its row normalised |
| ProjectStore.Store.CreateProject | src/lib/projects.ts:239-293 | a missing title fails with the table unchanged; otherwise one new row under the smallest free slug, returned normalised |
| ProjectStore.Store.UpdateProject | src/lib/projects.ts:295-369 | a missing title fails unchanged; an absent id returns null unchanged; otherwise only that row is rewritten, keeping its creation time |
| ProjectStore.Store.DeleteProject | src/lib/projects.ts:371-378 | true iff the id existed; exactly that row is removed |
| ProjectStore.DeleteTwice | src/lib/projects.ts:371-378 | a repeated delete returns false and removes nothing more |
| AdminAuth.BearerToken | src/lib/admin-auth.ts:8-11 | a token exists iff the header starts with `Bearer `, and the header is that prefix plus the token |
| AdminAuth.RequireAdmin | src/lib/admin-auth.ts:7-34 | 401 without a token, then 500 without ADMIN_EMAIL; ok iff the lookup yields an email equal to ADMIN_EMAIL up to case, returned in its own casing; statuses are only 401/403/500 |
| AdminAuth.ProviderNotConsulted | src/lib/admin-auth.ts:13-23 | without a token or a configured address the answer does not depend on the identity provider and is a refusal |
| AdminAuth.InvalidSession | src/lib/admin-auth.ts:25-27 | a failed lookup or a session without an email gives 401 "Invalid session." |
| AdminAuth.CaseInsensitiveMatch | src/lib/admin-auth.ts:29-33 | an address equal up to case is accepted, returning the provider's casing |
| AdminAuth.OtherUserForbidden | src/lib/admin-auth.ts:29-31 | another address gives 403 |
| AdminAuth.BareOrOtherSchemeIsMissing | src/lib/admin-auth.ts:9-15 | the bare prefix or another scheme gives 401 "Missing access token." whatever the configuration |
| AdminProjectsRoute.Get | src/app/api/admin/projects/route.ts:5-13 | a guard failure is answered with its status and message; otherwise every project, published or not |
| AdminProjectsRoute.Post | src/app/api/admin/projects/route.ts:15-30 | a guard failure leaves the store untouched; a body error, a missing title or a store error (failed slug query or INSERT) becomes 400 with its message and leaves the table unchanged; success returns exactly the created project |
| EngagementRecorder.Validate | src/app/api/engagement/route.ts:9-18 | accepted iff the lower-cased type is view/inquiry/click and the trimmed slug is non-empty; the type is checked first |
| EngagementRecorder.NewRow | src/app/api/engagement/route.ts:21-29 | the normalised type and slug; absent optional fields stored as null |
| EngagementRecorder.UpperCaseTypeAccepted | src/app/api/engagement/route.ts:9-14 | "VIEW" is accepted and stored as "view" |
| EngagementRecorder.TypeCheckedFirst | src/app/api/engagement/route.ts:12-18 | a bad type with an empty slug reports "Invalid event type." |
| EngagementRecorder.EventLog.Record | src/app/api/engagement/route.ts:6-41 | a bad body or failed check gives 400 and appends nothing; an insert error gives 500; ok iff exactly one row was appended; old rows are kept |
| EngagementAggregator.WindowDays | src/app/api/admin/engagement/route.ts:21-22 | the parameter when it is > 0, otherwise 30; always positive |
| EngagementAggregator.Cutoff | src/app/api/admin/engagement/route.ts:23 | strictly before now; for a positive `days`, exactly `days` days before now |
| EngagementAggregator.CutoffRange | src/app/api/admin/engagement/route.ts:21-23 | with a clock at or after the epoch, windows up to 100 000 000 days have a representable cut-off, and windows over 200 000 000 days do not |
| EngagementAggregator.InWindow | src/app/api/admin/engagement/route.ts:23-29 | equals the log filtered by `createdAt >= since`: exactly the events at or after the cut-off, in log order, with their repetitions |
| EngagementAggregator.InWindowInOrder | src/app/api/admin/engagement/route.ts:23-29 | the rows returned are a subsequence of the log |
| EngagementAggregator.Count | src/app/api/admin/engagement/route.ts:41-67 | the count of events of a slug (and type) is at most the number of events |
| EngagementAggregator.FirstAppearance | src/app/api/admin/engagement/route.ts:35-52 | the distinct non-empty slugs that occur, without repeats |
| EngagementAggregator.Summary | src/app/api/admin/engagement/route.ts:35-87 | one entry per distinct non-empty slug, in order of first appearance |
| EngagementAggregator.CountAbsent | src/app/api/admin/engagement/route.ts:37-53 | a slug that does not occur counts zero |
| EngagementAggregator.TypedCountsBounded | src/app/api/admin/engagement/route.ts:55-67 | views + inquiries + clicks ≤ total |
| EngagementAggregator.SessionsBounded | src/app/api/admin/engagement/route.ts:71-83 | distinct sessions ≤ total |
| EngagementAggregator.SummaryBounds | src/app/api/admin/engagement/route.ts:35-87 | every entry has a non-empty slug, total ≥ 1, typed counts ≤ total and sessions ≤ total |
| EngagementAggregator.CountPositive | src/app/api/admin/engagement/route.ts:41-53 | a slug that occurs counts at least once |
| EngagementAggregator.SluglessEventIgnored | src/app/api/admin/engagement/route.ts:38-39 | an event without a slug changes no entry and adds none |
| EngagementAggregator.CountEvents | src/app/api/admin/engagement/route.ts:35-68 | the first pass builds, in first-appearance order, each slug's total and typed counters |
| EngagementAggregator.Bump | src/app/api/admin/engagement/route.ts:53-67 | total + 1 and exactly the matching typed counter + 1 |
| EngagementAggregator.CollectSessions | src/app/api/admin/engagement/route.ts:71-78 | the second pass maps each slug to its set of non-empty session ids |
| EngagementAggregator.SetUniqueSessions | src/app/api/admin/engagement/route.ts:80-83 | the third pass sets each entry's session count to its set's size, keeping the other counters |
| EngagementAggregator.Aggregate | src/app/api/admin/engagement/route.ts:35-87 | the three passes compute exactly `Summary` of the rows |
| EngagementAggregator.Get | src/app/api/admin/engagement/route.ts:14-89 | a guard failure gives its status; a cut-off outside the `Date` range throws an uncaught `RangeError` before the query; then a store error gives 500; otherwise the window used and the summary of the events inside it |
| EngagementClient.SessionFor | src/lib/engagement.ts:9-16 | a stored non-empty id is returned; otherwise the generated one |
| EngagementClient.Latched | src/lib/engagement.ts:9-15 | afterwards the key holds the returned id and every other key is unchanged |
| EngagementClient.LatchIsStable | src/lib/engagement.ts:9-16 | once an id is latched, later calls return it and leave the storage unchanged |
| EngagementClient.GetSessionId | src/lib/engagement.ts:7-17 | null and no write without a window; otherwise `SessionFor` with the storage `Latched` |
| EngagementClient.SessionIdTwice | src/lib/engagement.ts:7-17 | two calls return the same id |
| EngagementClient.TrackOutcome | src/lib/engagement.ts:24-47 | skipped iff the slug is empty or there is no window; otherwise the beacon iff available, else fetch, carrying the slug, the id (null when absent), the type, the session id, and the page's pathname, referrer and user agent |
| EngagementClient.TrackEngagement | src/lib/engagement.ts:19-48 | performs `TrackOutcome`; only a sent event touches the storage, through the session latch |
| EngagementClient.Tracker.Effect | src/components/analytics/engagement-tracker.tsx:19-24 | nothing once latched or without a slug; otherwise latches and, when a window exists, keeps the stored session id or stores the generated one and forwards slug, id and type once (one send more) |
| EngagementClient.EffectTwice | src/components/analytics/engagement-tracker.tsx:17-23 | a second effect run sends nothing; at most one send ever |
| ProjectForm.CleanLines | src/components/admin/project-form.tsx:49-54 | equals the lines trimmed one by one and filtered for non-empty: every non-empty trimmed line, in order, with its repetitions, and nothing else |
| ProjectForm.CleanLinesInOrder | src/components/admin/project-form.tsx:49-54 | the items are a subsequence of the trimmed lines, and every non-blank line's trim is among them |
| ProjectForm.CleanLinesFrom | src/components/admin/project-form.tsx:49-54 | every item is the trim of some line |
| ProjectForm.CleanLinesOfClean | src/components/admin/project-form.tsx:49-54 | lines already clean are kept unchanged and in order |
| ProjectForm.ListTextRoundTrip | src/components/admin/project-form.tsx:45-54 | `textToList(listToText(xs)) == xs` for non-empty, trimmed, single-line items |
| ProjectForm.TextToListIdempotent | src/components/admin/project-form.tsx:45-54 | a second text round trip changes nothing |
| ProjectForm.TextToListNoBreak | src/components/admin/project-form.tsx:49-54 | no item holds a line break |
| ProjectForm.BuildInitialState | src/components/admin/project-form.tsx:56-84 | a new project starts published, not featured, with sort order "0", the default cover colours and every detail and list text empty; an existing one shows its title, slug, sort order, flags, cover colours, each detail (null as "") and each list joined by line breaks |
| ProjectForm.BuildMetricRows | src/components/admin/project-form.tsx:86-88 | the metrics if non-empty, else one blank row |
| ProjectForm.BuildApproachRows | src/components/admin/project-form.tsx:90-92 | the steps if non-empty, else one blank row |
| ProjectForm.NumberOrZero | src/components/admin/project-form.tsx:193 | a numeral's value, else 0 |
| ProjectForm.CleanMetrics | src/components/admin/project-form.tsx:206-211 | equals the rows trimmed one by one and filtered for completeness: every complete trimmed metric, in order, with its repetitions, and nothing else |
| ProjectForm.CleanApproach | src/components/admin/project-form.tsx:212-217 | equals the steps trimmed one by one and filtered for completeness: every complete trimmed step, in order, with its repetitions, and nothing else |
| ProjectForm.CleanMetricsInOrder | src/components/admin/project-form.tsx:206-211 | the metrics sent are a subsequence of the trimmed rows |
| ProjectForm.CleanApproachInOrder | src/components/admin/project-form.tsx:212-217 | the steps sent are a subsequence of the trimmed steps |
| ProjectForm.CleanMetricsKeepsComplete | src/components/admin/project-form.tsx:206-211 | no metric that is complete once trimmed is dropped |
| ProjectForm.CleanApproachKeepsComplete | src/components/admin/project-form.tsx:212-217 | no step that is complete once trimmed is dropped |
| ProjectForm.CleanMetricsKeepsClean | src/components/admin/project-form.tsx:206-211 | clean metrics pass through unchanged and in order |
| ProjectForm.CleanMetricsIdempotent | src/components/admin/project-form.tsx:206-211 | cleaning twice is cleaning once |
| ProjectForm.ListsFromText | src/components/admin/project-form.tsx:201-205 | each of tools, goals, responsibilities, highlights and tags is `textToList` of its own text |
| ProjectForm.FormPayload | src/components/admin/project-form.tsx:178-218 | the title as typed; the slug is the form's if non-empty, else `slugify(title)`; the sort order is a number or 0; the flags as set; the cover has its defaults; each detail is its text or null when empty; all five lists come from `textToList`; the rows are cleaned |
| ProjectForm.UntouchedFormRoundTrip | src/components/admin/project-form.tsx:56-84 | opening a project with a cover and saving it untouched sends back its title, its slug when it has one, its sort order, flags and cover, and each detail with an empty text read as null |
| ProjectForm.UntouchedListsRoundTrip | src/components/admin/project-form.tsx:56-84 | opening a project whose list items are trimmed, non-empty and single-line and saving it untouched sends back all five lists unchanged |
| ProjectForm.BlankTitleRefused | src/components/admin/project-form.tsx:179 | a blank title reaches the API as a missing title, which it refuses |
| ProjectForm.Editor.constructor | src/components/admin/project-form.tsx:97-105 | the state starts from `buildInitialState` and the row builders |
| ProjectForm.Editor.HandleMetricChange | src/components/admin/project-form.tsx:112-122 | only the named field of the row at the index changes; out of range changes nothing |
| ProjectForm.Editor.HandleApproachChange | src/components/admin/project-form.tsx:124-134 | only the named field of the step at the index changes; out of range changes nothing |
| ProjectForm.Editor.AddMetric | src/components/admin/project-form.tsx:136 | one blank row appended; nothing else changes |
| ProjectForm.Editor.RemoveMetric | src/components/admin/project-form.tsx:137-138 | exactly the row at the index removed, order kept |
| ProjectForm.Editor.AddApproach | src/components/admin/project-form.tsx:140-141 | one blank step appended; nothing else changes |
| ProjectForm.Editor.RemoveApproach | src/components/admin/project-form.tsx:142-143 | exactly the step at the index removed, order kept |
| ProjectForm.Editor.HandleSubmit | src/components/admin/project-form.tsx:173-251 | sends `FormPayload` to create, or to update the edited id; the status is the saved message or the error; redirects only after creating with an id; saving ends |
| WorkGallery.GetCoverStyle | src/components/work/work-gallery.tsx:16-30 | the image (behind the shade) iff a cover URL is set, else the background; the colour is always the foreground |
| WorkGallery.CoverImageRecovered | src/components/work/work-gallery.tsx:17-19 | the style holds the shade followed by `url(<cover URL>)` |
| WorkGallery.FieldHitMatches | src/components/work/work-gallery.tsx:32-47 | a query found, case-insensitively, in any of the six present fields matches |
| WorkGallery.QueryCaseInsensitive | src/components/work/work-gallery.tsx:44-46 | the query's case does not matter |
| WorkGallery.Distinct | src/components/work/work-gallery.tsx:57-61 | exactly the non-empty values present, no more of them than the values |
| WorkGallery.InsertSorted | src/components/work/work-gallery.tsx:62 | keeps a strictly sorted list sorted, adding exactly the new element |
| WorkGallery.SortedDistinct | src/components/work/work-gallery.tsx:57-62 | strictly sorted, exactly the distinct non-empty values |
| WorkGallery.Categories | src/components/work/work-gallery.tsx:56-63 | "All" then the distinct non-empty categories, sorted without duplicates |
| WorkGallery.Stats | src/components/work/work-gallery.tsx:81-97 | three stats with their labels in order; the figures are the project count, the distinct client count and the distinct category count |
| WorkGallery.StatsCounts | src/components/work/work-gallery.tsx:81-97 | the figures read back as the project count, the number of distinct non-empty clients (≤ the project count) and the number of distinct categories |
| WorkGallery.Occurrences | src/components/work/work-gallery.tsx:66-71 | positive iff the tag occurs |
| WorkGallery.FirstSeen | src/components/work/work-gallery.tsx:66-71 | the Map's keys: every tag once, in order of first appearance |
| WorkGallery.CountTags | src/components/work/work-gallery.tsx:66-71 | the keys are `FirstSeen` of all tags and each count is that tag's occurrences |
| WorkGallery.InsertByCount | src/components/work/work-gallery.tsx:75 | keeps a list in non-increasing count order, adding exactly one element |
| WorkGallery.RankByCount | src/components/work/work-gallery.tsx:75 | non-increasing count order, a permutation of the keys |
| WorkGallery.Tags | src/components/work/work-gallery.tsx:65-79 | "All" then min(6, distinct tags) distinct tags, in non-increasing count, none of them less frequent than any tag left out |
| WorkGallery.TopOfRanking | src/components/work/work-gallery.tsx:74-77 | the first six of a count-ranked permutation are the most frequent tags |
| WorkGallery.FilteredProjects | src/components/work/work-gallery.tsx:99-107 | an order-preserving subsequence, holding exactly the projects that pass the category, tag and query filters |
| WorkGallery.NoFilterKeepsAll | src/components/work/work-gallery.tsx:99-107 | with "All", "All" and an empty query every project is kept |
| WorkGallery.FeaturedIndex | src/components/work/work-gallery.tsx:109-110 | the first featured index, else 0 when none is featured; absent iff there are no projects |
| WorkGallery.FeaturedProject | src/components/work/work-gallery.tsx:109-110 | absent iff there are no projects; otherwise one of them |
| WorkGallery.ListProjects | src/components/work/work-gallery.tsx:111-115 | when filtering, the filtered list; otherwise the projects whose slug differs from the featured one's; always a subsequence |
| WorkGallery.FeaturedNotListed | src/components/work/work-gallery.tsx:113-115 | without filters the featured project is not listed again |
| WorkGallery.BlankQueryIsNotFiltering | src/components/work/work-gallery.tsx:111-112 | a whitespace-only query does not count as filtering |
| AdminDashboard.ScrubEmail | src/app/admin/page.tsx:52-53 | no white space and no U+200B–U+200D or U+FEFF; exactly the other characters of the trimmed, lower-cased address, in order and each as often as it occurs there |
| AdminDashboard.BlankEmailScrubsEmpty | src/app/admin/page.tsx:52-54 | an address made only of invisible characters (white space, zero-width marks) scrubs to "" |
| AdminDashboard.AtIndex | src/app/admin/page.tsx:59 | the first "@", if any |
| AdminDashboard.EmailShapeMatchesPattern | src/app/admin/page.tsx:59 | the shape check accepts exactly what `^[^\s@]+@[^\s@]+\.[^\s@]+$` matches |
| AdminDashboard.DashboardStats | src/app/admin/page.tsx:33-37 | the published and featured counts, each ≤ the project count |
| AdminDashboard.AllPublishedCounted | src/app/admin/page.tsx:34 | the published count equals the project count iff all are published |
| AdminDashboard.LastWith | src/app/admin/page.tsx:39-45 | absent iff no entry has the slug; otherwise an entry with that slug |
| AdminDashboard.LastWithIsLast | src/app/admin/page.tsx:41-43 | it is the last entry with the slug |
| AdminDashboard.EngagementBySlug | src/app/admin/page.tsx:39-45 | holds a slug iff some entry has it, mapped to the last such entry |
| AdminDashboard.CardFigures | src/app/admin/page.tsx:401-405 | zeros for a slug without an entry; otherwise the entry's figures |
| AdminDashboard.SignIn.HandleLogin | src/app/admin/page.tsx:47-77 | empty gives "Enter your email address.", a bad shape gives "Enter a valid email address.", neither requests; otherwise requests with the scrubbed address; success awaits the code; sending ends |
| AdminDashboard.SignIn.HandleVerifyOtp | src/app/admin/page.tsx:79-107 | the e-mail check precedes the code check; a blank code makes no request; otherwise requests the scrubbed address and trimmed code; the status is the provider's error or "Signed in." |
| AdminDashboard.SignIn.HandleSignOut | src/app/admin/page.tsx:109-113 | no longer awaiting a code; the code is cleared; nothing else changes |
| InquiriesRoute.ValidateInquiry | src/app/api/inquiries/route.ts:35-45 | refused with 400 iff a trimmed name, e-mail or message is empty; otherwise the trimmed fields, with an empty project as null |
| InquiriesRoute.ValidateIdempotent | src/app/api/inquiries/route.ts:35-45 | an accepted inquiry sent again is accepted as itself |
| InquiriesRoute.AdminClient | src/lib/supabase/admin.ts:5-12 | fails iff the URL or the key is unset, reporting the URL first |
| InquiriesRoute.NotifyRequest | src/app/api/inquiries/route.ts:4-25 | fails iff either value is unset; otherwise the function URL, the service key as bearer, and the inquiry |
| InquiriesRoute.RefusalMessage | src/app/api/inquiries/route.ts:26-29 | the response text if non-empty, else the default; never empty |
| InquiriesRoute.InquiryLog.Post | src/app/api/inquiries/route.ts:32-67 | 400 for a bad body, bad fields or missing configuration; 500 on an insert error; a notification only after the insert; a refused notification gives 400 with the row kept; ok only once sent |
| InquiriesRoute.NotifyConfigAlreadyChecked | src/app/api/inquiries/route.ts:13-15 | once the admin client exists, the notify configuration check passes |
| InquiriesRoute.StoredDespiteRefusal | src/app/api/inquiries/route.ts:48-66 | a refused notification still leaves the inquiry stored, once |
| SendInquiryEmail.Field | supabase/functions/send-inquiry-email/index.ts:33-36 | trimmed; absent is "" |
| SendInquiryEmail.BreakLines | supabase/functions/send-inquiry-email/index.ts:53 | no newline is left |
| SendInquiryEmail.BreakLinesIsSplitJoin | supabase/functions/send-inquiry-email/index.ts:53 | equals `split("\n").join("<br />")` |
| SendInquiryEmail.SingleLineUnchanged | supabase/functions/send-inquiry-email/index.ts:53 | a single-line message is unchanged |
| SendInquiryEmail.Subject | supabase/functions/send-inquiry-email/index.ts:42-44 | "New inquiry about <project>" for a project, else "New portfolio inquiry" |
| SendInquiryEmail.SubjectInjective | supabase/functions/send-inquiry-email/index.ts:42-44 | different projects get different subjects |
| SendInquiryEmail.Sender | supabase/functions/send-inquiry-email/index.ts:19-20 | the configured sender, else the default |
| SendInquiryEmail.ProjectLine | supabase/functions/send-inquiry-email/index.ts:51 | empty iff no project |
| SendInquiryEmail.HtmlShowsFields | supabase/functions/send-inquiry-email/index.ts:46-55 | the body contains the name, the e-mail and the line-broken message |
| SendInquiryEmail.HtmlNamesProject | supabase/functions/send-inquiry-email/index.ts:51 | the project line appears for a project, and the body differs from the project-less one iff a project is given |
| SendInquiryEmail.BuildEmail | supabase/functions/send-inquiry-email/index.ts:57-70 | sent to the notify address, reply-to the submitter, with `Sender`, `Subject` and the `Html` body |
| SendInquiryEmail.Handle | supabase/functions/send-inquiry-email/index.ts:12-81 | 405 for a non-POST; 500 without the key or address; 400 "Missing inquiry fields." when name, e-mail or message is absent or blank; 200 iff an e-mail was sent and accepted; reply-to is the trimmed, non-empty e-mail |
| SendInquiryEmail.ChecksInOrder | supabase/functions/send-inquiry-email/index.ts:13-31 | the method check precedes the configuration check, which precedes body parsing |
| SendInquiryEmail.AcceptedInquiryMailed | supabase/functions/send-inquiry-email/index.ts:33-80 | valid fields send exactly `BuildEmail` of the trimmed fields: from `Sender` (the default when unset), to the notify address, reply-to the e-mail, with the project's subject and a body showing the message; a refusal gives 500 with the provider text or its default |
| SendInquiryEmail.BlankFieldRefused | supabase/functions/send-inquiry-email/index.ts:38-40 | an absent or whitespace-only name, e-mail or message gives 400 and sends nothing |

## Left out

- `slugify` (src/lib/slugify) is not part of this model. It is a function parameter.
  - The upload file name's `"project"` fallback is left out along with `handleUpload`.
- `handleUpload` and Supabase storage, router navigation and `window.confirm` are left out. They are browser I/O.
- `handleChange` is a pure update that replaces one form field and keeps the others. It is not modelled as a handler: the editor takes the form state as it stands when it is submitted.
- SQL text, the Neon driver, `toRows` and the memoised client singletons are left out.
  - The table is a map.
  - A store error is an input to the handlers that report one: the engagement handlers and the inquiries route answer 500, the admin `POST` answers 400 with its message.
  - A failed query in the admin `GET` (src/app/api/admin/projects/route.ts:11) escapes uncaught; this is not modelled.
- The check-then-insert slug race between concurrent requests is not modelled. The model is sequential.
- Ids are store-assigned naturals rather than UUIDs, so `excludeId ?` is always truthy.
- Time is an integer supplied by the caller.
  - `createdAt` is compared as an integer, where the source holds text.
  - The update statement does not set `updated_at`; the model keeps both timestamps.
- `Number()` parsing of `days` and `sortOrder` (NaN, fractions, exponents) is not modelled. Both are optional integers.
  - The cut-off `days * 86400000` is exact within the `Date` range, because it stays below 2^53 there. Floating-point rounding outside that range does not matter, since such a cut-off throws anyway.
- The engagement query (src/app/api/admin/engagement/route.ts:26-29) has no `ORDER BY`, so the database may return the rows in any order. The model takes them in log order, which fixes the order of the report's entries (route.ts:87) as first appearance in the log.
- ProjectForm.NumberOrZero: reads only decimal integer numerals, so fractional or exponent `sortOrder` texts become 0.
- `toLowerCase` is ASCII only. `normalize("NFKC")` is the identity.
- Sorting compares code points, where JavaScript's default sort compares UTF-16 code units. They differ only outside the Basic Multilingual Plane.
- WorkGallery.Tags: the order among tags with equal counts (the sort's stability) is not stated.
- JSON encoding and decoding is a codec parameter. Round-trip results require that it round-trips.
- JSON body fields are strings or absent. `String(x)` on non-string values is not modelled, nor is `.trim()` throwing on them.
- A null project slug is modelled as "".
- The page's `saves` field and the `[id]` project route are left out.
- `fetch`, `sendBeacon`, `localStorage` beyond a key-value map, Resend and Supabase auth are left out. Each answer they give is an input.
  - A `fetch` that throws in `notifyInquiry` is folded into `Refused`.
- `getSupabaseAdmin` throwing on missing configuration is not modelled inside `requireAdmin` (src/lib/admin-auth.ts:22) or the engagement handlers. It is modelled only in the inquiries route.
  - In the admin projects route (src/app/api/admin/projects/route.ts:6,16) that throw escapes uncaught; the model does not show it.
  - A rejected `auth.getUser` promise is not modelled either. The lookup is an input that answers with a user or an error.
- The intermediate `sending`/`isSaving` values shown while a request is in flight are not modelled. Only the state after each handler is.
- The configuration check inside `notifyInquiry` can never fail in the inquiries route, because the admin client already required both values. The model shows this branch is dead (InquiriesRoute.NotifyConfigAlreadyChecked).
- ProjectModel.NormalizeRow: its own contract states only the id, slug and published flag. The remaining fields are stated by ProjectModel.WriteThenRead.
