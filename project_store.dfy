/** The `projects` table of src/lib/projects.ts as an in-memory map from id to
    row, with each SQL statement of the repository as an operation on it. */
module ProjectStore {

  import opened Wrappers
  import opened Text
  import opened ProjectModel

  /** The slug `ensureUniqueSlug` tries after `k` collisions: `base`, then
      `base-1`, `base-2`, ... — the suffix always goes on the original base. */
  function Candidate(base: string, k: nat): string {
    if k == 0 then base else base + "-" + Decimal(k)
  }

  /** Different probes try different slugs, so the probing loop never revisits one. */
  lemma CandidateInjective(base: string, i: nat, j: nat)
    requires Candidate(base, i) == Candidate(base, j)
    ensures i == j
  {
    if i != 0 && j != 0 {
      var a, b := Candidate(base, i), Candidate(base, j);
      assert a[|base| + 1..] == Decimal(i);
      assert b[|base| + 1..] == Decimal(j);
      DecimalInjective(i, j);
    }
  }

  /** Some row other than `exclude` holds `slug` (the probe query of
      `ensureUniqueSlug`, with `id <> $2` when an id is excluded). */
  predicate SlugTaken(rows: map<Id, Row>, slug: string, exclude: Option<Id>) {
    exists id | id in rows :: rows[id].slug == slug && exclude != Some(id)
  }

  /** `s` is the first of `base`, `base-1`, `base-2`, ... that no row other
      than `exclude` holds. */
  ghost predicate IsSmallestFreeSlug(rows: map<Id, Row>, base: string, exclude: Option<Id>, s: string) {
    exists k: nat ::
      && s == Candidate(base, k)
      && !SlugTaken(rows, s, exclude)
      && forall j: nat :: j < k ==> SlugTaken(rows, Candidate(base, j), exclude)
  }

  /** The slugs held by rows other than `exclude`. */
  ghost function TakenSlugs(rows: map<Id, Row>, exclude: Option<Id>): set<string> {
    set id | id in rows && exclude != Some(id) :: rows[id].slug
  }

  lemma TakenSlugsHas(rows: map<Id, Row>, slug: string, exclude: Option<Id>)
    requires SlugTaken(rows, slug, exclude)
    ensures slug in TakenSlugs(rows, exclude)
  {
    var id :| id in rows && rows[id].slug == slug && exclude != Some(id);
  }

  /** The first `n` candidates. */
  ghost function Tried(base: string, n: nat): set<string> {
    set j: nat | j < n :: Candidate(base, j)
  }

  /** Probing one more candidate adds a slug not tried before. */
  lemma TriedGrows(base: string, n: nat)
    ensures Candidate(base, n) !in Tried(base, n)
    ensures Tried(base, n + 1) == Tried(base, n) + {Candidate(base, n)}
  {
    if Candidate(base, n) in Tried(base, n) {
      var j: nat :| j < n && Candidate(base, n) == Candidate(base, j);
      CandidateInjective(base, j, n);
    }
  }

  /** The first `n` candidates are all taken. */
  ghost predicate AllTaken(rows: map<Id, Row>, base: string, exclude: Option<Id>, n: nat) {
    forall j: nat :: j < n ==> SlugTaken(rows, Candidate(base, j), exclude)
  }

  /** One more collision: the first `n + 1` candidates are taken, all of them
      are held by some row, and fewer held slugs remain untried. */
  lemma ProbeStep(rows: map<Id, Row>, base: string, exclude: Option<Id>, n: nat)
    requires AllTaken(rows, base, exclude, n) && SlugTaken(rows, Candidate(base, n), exclude)
    requires Tried(base, n) <= TakenSlugs(rows, exclude)
    ensures AllTaken(rows, base, exclude, n + 1)
    ensures Tried(base, n + 1) <= TakenSlugs(rows, exclude)
    ensures |TakenSlugs(rows, exclude) - Tried(base, n + 1)| < |TakenSlugs(rows, exclude) - Tried(base, n)|
  {
    TriedGrows(base, n);
    TakenSlugsHas(rows, Candidate(base, n), exclude);
    SetDifferenceShrinks(TakenSlugs(rows, exclude), Tried(base, n), Candidate(base, n));
  }

  /** The first free candidate after `n` collisions is the answer of the probe. */
  lemma ProbeFound(rows: map<Id, Row>, base: string, exclude: Option<Id>, n: nat)
    requires AllTaken(rows, base, exclude, n) && !SlugTaken(rows, Candidate(base, n), exclude)
    ensures IsSmallestFreeSlug(rows, base, exclude, Candidate(base, n))
  {
  }

  /** Moving `x` from pending to done adds one to what is done. */
  lemma RemovePendingGrowsDone<T>(a: set<T>, pending: set<T>, x: T)
    requires pending <= a && x in pending
    ensures a - (pending - {x}) == (a - pending) + {x}
    ensures |a - (pending - {x})| == |a - pending| + 1
  {
    assert a - (pending - {x}) == (a - pending) + {x};
  }

  lemma SetDifferenceShrinks<T>(a: set<T>, b: set<T>, x: T)
    requires x in a && x !in b
    ensures |a - (b + {x})| < |a - b|
  {
    assert a - (b + {x}) == (a - b) - {x};
  }

  /** No two rows share a slug. */
  ghost predicate UniqueSlugs(rows: map<Id, Row>) {
    forall a, b :: a in rows && b in rows && rows[a].slug == rows[b].slug ==> a == b
  }

  /** The probe has exactly one answer for a given table, base and exclusion. */
  lemma SmallestFreeSlugIsUnique(rows: map<Id, Row>, base: string, exclude: Option<Id>, s1: string, s2: string)
    requires IsSmallestFreeSlug(rows, base, exclude, s1)
    requires IsSmallestFreeSlug(rows, base, exclude, s2)
    ensures s1 == s2
  {
    var k1: nat :| s1 == Candidate(base, k1) && !SlugTaken(rows, s1, exclude)
      && forall j: nat :: j < k1 ==> SlugTaken(rows, Candidate(base, j), exclude);
    var k2: nat :| s2 == Candidate(base, k2) && !SlugTaken(rows, s2, exclude)
      && forall j: nat :: j < k2 ==> SlugTaken(rows, Candidate(base, j), exclude);
  }

  /** Re-saving a project under its current slug: excluding its own id, the
      slug is free, so no suffix is added. */
  lemma ResavedSlugHasNoSuffix(rows: map<Id, Row>, id: Id, s: string)
    requires UniqueSlugs(rows)
    requires id in rows
    requires IsSmallestFreeSlug(rows, rows[id].slug, Some(id), s)
    ensures s == rows[id].slug
  {
    var base := rows[id].slug;
    assert !SlugTaken(rows, Candidate(base, 0), Some(id));
    assert IsSmallestFreeSlug(rows, base, Some(id), base) by {
      assert base == Candidate(base, 0);
    }
    SmallestFreeSlugIsUnique(rows, base, Some(id), s, base);
  }

  /** Inserting a row whose slug no row holds keeps slugs unique. */
  lemma InsertKeepsSlugsUnique(rows: map<Id, Row>, id: Id, row: Row)
    requires UniqueSlugs(rows)
    requires id !in rows
    requires !SlugTaken(rows, row.slug, None)
    ensures UniqueSlugs(rows[id := row])
  {
  }

  /** Rewriting a row with a slug no other row holds keeps slugs unique. */
  lemma ReplaceKeepsSlugsUnique(rows: map<Id, Row>, id: Id, row: Row)
    requires UniqueSlugs(rows)
    requires !SlugTaken(rows, row.slug, Some(id))
    ensures UniqueSlugs(rows[id := row])
  {
  }

  /** `ORDER BY is_featured DESC, sort_order DESC, created_at DESC`: `a` may be
      listed before `b`. */
  predicate RankedBefore(a: Project, b: Project) {
    || (a.isFeatured && !b.isFeatured)
    || (a.isFeatured == b.isFeatured
        && (a.sortOrder > b.sortOrder || (a.sortOrder == b.sortOrder && a.createdAt >= b.createdAt)))
  }

  /** The ordering is total and transitive. */
  lemma RankedBeforeTotalPreorder(a: Project, b: Project, c: Project)
    ensures RankedBefore(a, b) || RankedBefore(b, a)
    ensures RankedBefore(a, b) && RankedBefore(b, c) ==> RankedBefore(a, c)
  {
  }

  predicate Ranked(s: seq<Project>) {
    forall i, j :: 0 <= i < j < |s| ==> RankedBefore(s[i], s[j])
  }

  predicate DistinctIds(s: seq<Project>) {
    forall i, j :: 0 <= i < j < |s| ==> s[i].id != s[j].id
  }

  function IdsOf(s: seq<Project>): set<Id> {
    set i | 0 <= i < |s| :: s[i].id
  }

  /** Rows `getProjects` selects: all, or only the published ones. */
  function EligibleIds(rows: map<Id, Row>, publishedOnly: bool): set<Id> {
    set id | id in rows && (!publishedOnly || ToBoolean(rows[id].isPublished))
  }

  /** The projects `getProjects` lists, by id, before ordering and limiting:
      every eligible row, normalized. */
  function Listing(rows: map<Id, Row>, publishedOnly: bool, json: JsonCodec): map<Id, Project> {
    map id | id in EligibleIds(rows, publishedOnly) :: NormalizeRow(rows[id], json)
  }

  /** Each listed project is its row normalized, carries its row's id, and is
      published when only published rows are asked for. */
  lemma ListingKeys(rows: map<Id, Row>, publishedOnly: bool, json: JsonCodec)
    requires forall id :: id in rows ==> rows[id].id == id
    ensures Listing(rows, publishedOnly, json).Keys == EligibleIds(rows, publishedOnly)
    ensures forall id :: id in Listing(rows, publishedOnly, json) ==>
      && Listing(rows, publishedOnly, json)[id] == NormalizeRow(rows[id], json)
      && Listing(rows, publishedOnly, json)[id].id == id
      && (publishedOnly ==> Listing(rows, publishedOnly, json)[id].isPublished)
  {
  }

  /** Where `p` goes in a ranked list: after every entry it may not precede. */
  function InsertPos(p: Project, s: seq<Project>): (k: nat)
    ensures k <= |s|
    ensures forall i :: 0 <= i < k ==> !RankedBefore(p, s[i])
    ensures k < |s| ==> RankedBefore(p, s[k])
    decreases |s|
  {
    if s == [] || RankedBefore(p, s[0]) then 0 else 1 + InsertPos(p, s[1..])
  }

  /** One step of the insertion sort: `p` placed at `InsertPos`. */
  function Insert(p: Project, s: seq<Project>): seq<Project> {
    s[..InsertPos(p, s)] + [p] + s[InsertPos(p, s)..]
  }

  /** Inserting at `InsertPos` keeps a ranked list ranked. */
  lemma InsertKeepsRanked(s: seq<Project>, p: Project)
    requires Ranked(s)
    ensures Ranked(Insert(p, s))
  {
    var k := InsertPos(p, s);
    var r := s[..k] + [p] + s[k..];
    forall i, j | 0 <= i < j < |r| ensures RankedBefore(r[i], r[j]) {
      if j < k {
        assert r[i] == s[i] && r[j] == s[j];
      } else if j == k {
        assert r[i] == s[i] && r[j] == p;
        RankedBeforeTotalPreorder(p, s[i], p);
      } else if i < k {
        assert r[i] == s[i] && r[j] == s[j - 1];
      } else if i == k {
        assert r[i] == p && r[j] == s[j - 1];
        RankedBeforeTotalPreorder(p, s[k], s[j - 1]);
      } else {
        assert r[i] == s[i - 1] && r[j] == s[j - 1];
      }
    }
  }

  /** Every entry is the project `all` holds under its id. */
  ghost predicate DrawnFrom(all: map<Id, Project>, s: seq<Project>) {
    forall i :: 0 <= i < |s| ==> s[i].id in all && s[i] == all[s[i].id]
  }

  /** Where each entry of `Insert(p, s)` comes from. */
  lemma InsertIndex(p: Project, s: seq<Project>, i: int)
    requires 0 <= i < |s| + 1
    ensures |Insert(p, s)| == |s| + 1
    ensures Insert(p, s)[i] == if i < InsertPos(p, s) then s[i] else if i == InsertPos(p, s) then p else s[i - 1]
  {
  }

  /** Inserting adds exactly the new id. */
  lemma InsertIds(s: seq<Project>, p: Project)
    ensures IdsOf(Insert(p, s)) == IdsOf(s) + {p.id}
  {
    var k := InsertPos(p, s);
    var next := Insert(p, s);
    InsertIndex(p, s, k);
    forall x | x in IdsOf(next) ensures x in IdsOf(s) + {p.id} {
      var i :| 0 <= i < |next| && next[i].id == x;
      InsertIndex(p, s, i);
      if i > k { assert s[i - 1].id == x; }
    }
    forall x | x in IdsOf(s) ensures x in IdsOf(next) {
      var i :| 0 <= i < |s| && s[i].id == x;
      var j := if i < k then i else i + 1;
      InsertIndex(p, s, j);
      assert next[j].id == x;
    }
  }

  /** Inserting an id not yet present keeps ids distinct. */
  lemma InsertDistinct(s: seq<Project>, p: Project)
    requires DistinctIds(s) && p.id !in IdsOf(s)
    ensures DistinctIds(Insert(p, s))
  {
    var k := InsertPos(p, s);
    var next := Insert(p, s);
    forall i, j | 0 <= i < j < |next| ensures next[i].id != next[j].id {
      InsertIndex(p, s, i);
      InsertIndex(p, s, j);
      if i == k {
        assert s[j - 1].id in IdsOf(s);
      } else if j == k {
        assert s[i].id in IdsOf(s);
      }
    }
  }

  /** Inserting one of the projects of `all` keeps the list drawn from `all`. */
  lemma InsertDrawn(all: map<Id, Project>, s: seq<Project>, p: Project)
    requires DrawnFrom(all, s) && p.id in all && p == all[p.id]
    ensures DrawnFrom(all, Insert(p, s))
  {
    forall i | 0 <= i < |Insert(p, s)| ensures Insert(p, s)[i].id in all && Insert(p, s)[i] == all[Insert(p, s)[i].id] {
      InsertIndex(p, s, i);
    }
  }

  /** The `ORDER BY is_featured DESC, sort_order DESC, created_at DESC` of
      `getProjects`: every project of `all`, once each, in ranking order. */
  method SortRanked(all: map<Id, Project>) returns (sorted: seq<Project>)
    requires forall id :: id in all ==> all[id].id == id
    ensures Ranked(sorted) && DistinctIds(sorted) && DrawnFrom(all, sorted)
    ensures IdsOf(sorted) == all.Keys && |sorted| == |all|
  {
    var pending := all.Keys;
    sorted := [];
    while pending != {}
      invariant pending <= all.Keys
      invariant DrawnFrom(all, sorted)
      invariant IdsOf(sorted) == all.Keys - pending
      invariant |sorted| == |all.Keys - pending|
      invariant Ranked(sorted) && DistinctIds(sorted)
      decreases |pending|
    {
      var id :| id in pending;
      var p := all[id];
      InsertKeepsRanked(sorted, p);
      InsertIds(sorted, p);
      InsertDistinct(sorted, p);
      InsertDrawn(all, sorted, p);
      InsertIndex(p, sorted, 0);
      RemovePendingGrowsDone(all.Keys, pending, id);
      sorted := Insert(p, sorted);
      pending := pending - {id};
    }
    assert |all.Keys| == |all|;
  }

  /** A prefix of a ranked list of distinct entries drawn from `all` is one too. */
  lemma PrefixKeeps(all: map<Id, Project>, s: seq<Project>, n: nat)
    requires Ranked(s) && DistinctIds(s) && DrawnFrom(all, s) && n <= |s|
    ensures Ranked(s[..n]) && DistinctIds(s[..n]) && DrawnFrom(all, s[..n])
    ensures IdsOf(s[..n]) <= IdsOf(s)
  {
    assert forall i :: 0 <= i < n ==> s[..n][i] == s[i];
  }

  /** Keeping the first `n` entries of a ranked list: every dropped entry
      ranks after every kept one. */
  lemma TopOfRanked(all: map<Id, Project>, s: seq<Project>, n: nat, id: Id)
    requires Ranked(s) && DrawnFrom(all, s) && n <= |s|
    requires id in IdsOf(s) - IdsOf(s[..n])
    ensures forall i :: 0 <= i < n ==> RankedBefore(s[i], all[id])
  {
    var j :| 0 <= j < |s| && s[j].id == id;
    assert n <= j;
  }

  /** `ORDER BY ... LIMIT n` over the listed projects: all of them in ranking
      order, or the first `n` when `n` is truthy. */
  method SelectRanked(all: map<Id, Project>, limit: Option<nat>) returns (r: seq<Project>)
    requires forall id :: id in all ==> all[id].id == id
    ensures DrawnFrom(all, r) && Ranked(r) && DistinctIds(r)
    ensures limit.None? || limit.value == 0 ==> IdsOf(r) == all.Keys
    ensures limit.Some? && limit.value > 0 ==>
      |r| == if limit.value < |all.Keys| then limit.value else |all.Keys|
    ensures forall id :: id in all.Keys - IdsOf(r) ==>
      forall i :: 0 <= i < |r| ==> RankedBefore(r[i], all[id])
  {
    var sorted := SortRanked(all);
    assert |all.Keys| == |all|;
    var n := if limit.Some? && limit.value > 0 && limit.value < |sorted| then limit.value else |sorted|;
    r := sorted[..n];
    PrefixKeeps(all, sorted, n);
    forall id | id in all.Keys - IdsOf(r)
      ensures forall i :: 0 <= i < |r| ==> RankedBefore(r[i], all[id])
    {
      TopOfRanked(all, sorted, n, id);
    }
    assert n == |sorted| ==> r == sorted;
  }

  class Store {
    /** The `projects` table, keyed by id. */
    var rows: map<Id, Row>
    /** The id the store assigns to the next inserted row. */
    var nextId: Id
    /** `slugify` from src/lib/slugify, not part of this model. */
    const slugify: string -> string
    /** `JSON.stringify` / `JSON.parse`. */
    const json: JsonCodec

    ghost predicate Valid()
      reads this
    {
      && (forall id :: id in rows ==> rows[id].id == id && id < nextId)
      && UniqueSlugs(rows)
    }

    constructor (slugify: string -> string, json: JsonCodec)
      ensures Valid() && rows == map[] && nextId == 0
      ensures this.slugify == slugify && this.json == json
    {
      this.rows := map[];
      this.nextId := 0;
      this.slugify := slugify;
      this.json := json;
    }

    /** `ensureUniqueSlug(base, excludeId)`. */
    method EnsureUniqueSlug(base: string, exclude: Option<Id>) returns (slug: string)
      ensures IsSmallestFreeSlug(rows, base, exclude, slug)
    {
      var table := rows;
      var candidate := base;
      var suffix: nat := 1;
      ghost var n: nat := 0;  // collisions so far
      while SlugTaken(table, candidate, exclude)
        invariant suffix == n + 1 && candidate == Candidate(base, n)
        invariant AllTaken(table, base, exclude, n)
        invariant Tried(base, n) <= TakenSlugs(table, exclude)
        decreases |TakenSlugs(table, exclude) - Tried(base, n)|
      {
        ProbeStep(table, base, exclude, n);
        candidate := Candidate(base, suffix);
        suffix := suffix + 1;
        n := n + 1;
      }
      slug := candidate;
      ProbeFound(table, base, exclude, n);
    }

    /** `getProjects({publishedOnly, limit})`. */
    method GetProjects(publishedOnly: Option<bool>, limit: Option<nat>) returns (r: seq<Project>)
      requires Valid()
      ensures DrawnFrom(Listing(rows, publishedOnly.GetOr(true), json), r)
      ensures Ranked(r) && DistinctIds(r)
      ensures limit.None? || limit.value == 0 ==> IdsOf(r) == EligibleIds(rows, publishedOnly.GetOr(true))
      ensures limit.Some? && limit.value > 0 ==>
        |r| == if limit.value < |EligibleIds(rows, publishedOnly.GetOr(true))| then limit.value
               else |EligibleIds(rows, publishedOnly.GetOr(true))|
      ensures forall id :: id in EligibleIds(rows, publishedOnly.GetOr(true)) - IdsOf(r) ==>
        forall i :: 0 <= i < |r| ==> RankedBefore(r[i], Listing(rows, publishedOnly.GetOr(true), json)[id])
    {
      ListingKeys(rows, publishedOnly.GetOr(true), json);
      r := SelectRanked(Listing(rows, publishedOnly.GetOr(true), json), limit);
    }

    /** `getProjectBySlug(slug, publishedOnly)`. */
    method GetProjectBySlug(slug: string, publishedOnly: Option<bool>) returns (r: Option<Project>)
      requires Valid()
      ensures r.None? <==> !exists id | id in rows :: rows[id].slug == slug
                                                 && (!publishedOnly.GetOr(true) || ToBoolean(rows[id].isPublished))
      ensures r.Some? ==> r.value.id in rows && rows[r.value.id].slug == slug
                          && r.value == NormalizeRow(rows[r.value.id], json)
      ensures r.Some? && publishedOnly.GetOr(true) ==> r.value.isPublished
    {
      var hits := set id | id in rows && rows[id].slug == slug
                          && (!publishedOnly.GetOr(true) || ToBoolean(rows[id].isPublished));
      if hits == {} {
        forall id | id in rows
          ensures !(rows[id].slug == slug && (!publishedOnly.GetOr(true) || ToBoolean(rows[id].isPublished)))
        {
          assert id !in hits;
        }
        return None;
      }
      var id :| id in hits;
      r := Some(NormalizeRow(rows[id], json));
      assert r.value.id == id;
    }

    /** `getProjectById(id)`. */
    method GetProjectById(id: Id) returns (r: Option<Project>)
      requires Valid()
      ensures r.None? <==> id !in rows
      ensures r.Some? ==> r.value.id == id && r.value == NormalizeRow(rows[id], json)
    {
      if id !in rows {
        return None;
      }
      r := Some(NormalizeRow(rows[id], json));
    }

    /** `createProject(input)`: `now` is the store's clock when the row is inserted. */
    method CreateProject(input: ProjectInput, now: int) returns (r: Result<Project, string>)
      requires Valid()
      modifies this
      ensures Valid()
      ensures TitleMissing(input) ==> r == Failure(TITLE_REQUIRED) && rows == old(rows) && nextId == old(nextId)
      ensures !TitleMissing(input) ==>
        && old(nextId) !in old(rows) && old(nextId) in rows
        && rows == old(rows)[old(nextId) := rows[old(nextId)]]
        && nextId == old(nextId) + 1
        && IsSmallestFreeSlug(old(rows), BaseSlug(slugify, input), None, rows[old(nextId)].slug)
        && rows[old(nextId)] == WriteRow(old(nextId), BuildPayload(input, rows[old(nextId)].slug, json), now, now)
        && r == Success(NormalizeRow(rows[old(nextId)], json))
    {
      if TitleMissing(input) {
        return Failure(TITLE_REQUIRED);
      }
      var base := BaseSlug(slugify, input);
      var slug := EnsureUniqueSlug(base, None);
      var row := WriteRow(nextId, BuildPayload(input, slug, json), now, now);
      assert !SlugTaken(rows, slug, None);
      InsertKeepsSlugsUnique(rows, nextId, row);
      rows := rows[nextId := row];
      nextId := nextId + 1;
      r := Success(NormalizeRow(row, json));
    }

    /** `updateProject(id, input)`: the slug probe runs before the row is looked
        up, and the UPDATE statement leaves the timestamps as they were. */
    method UpdateProject(id: Id, input: ProjectInput) returns (r: Result<Option<Project>, string>)
      requires Valid()
      modifies this
      ensures Valid() && nextId == old(nextId)
      ensures TitleMissing(input) ==> r == Failure(TITLE_REQUIRED) && rows == old(rows)
      ensures !TitleMissing(input) && id !in old(rows) ==> r == Success(None) && rows == old(rows)
      ensures !TitleMissing(input) && id in old(rows) ==>
        && id in rows && rows == old(rows)[id := rows[id]]
        && IsSmallestFreeSlug(old(rows), BaseSlug(slugify, input), Some(id), rows[id].slug)
        && rows[id] == WriteRow(id, BuildPayload(input, rows[id].slug, json), old(rows)[id].createdAt, old(rows)[id].updatedAt)
        && r == Success(Some(NormalizeRow(rows[id], json)))
    {
      if TitleMissing(input) {
        return Failure(TITLE_REQUIRED);
      }
      var base := BaseSlug(slugify, input);
      var slug := EnsureUniqueSlug(base, Some(id));
      var payload := BuildPayload(input, slug, json);
      if id !in rows {
        return Success(None);
      }
      var row := WriteRow(id, payload, rows[id].createdAt, rows[id].updatedAt);
      assert !SlugTaken(rows, slug, Some(id));
      ReplaceKeepsSlugsUnique(rows, id, row);
      rows := rows[id := row];
      r := Success(Some(NormalizeRow(row, json)));
    }

    /** `deleteProject(id)`. */
    method DeleteProject(id: Id) returns (deleted: bool)
      requires Valid()
      modifies this
      ensures Valid() && nextId == old(nextId)
      ensures deleted <==> id in old(rows)
      ensures rows == old(rows) - {id}
    {
      deleted := id in rows;
      rows := rows - {id};
    }
  }

  /** Deleting the same id twice: the second delete reports that nothing was
      removed, and the table stays as the first delete left it. */
  method DeleteTwice(store: Store, id: Id) returns (first: bool, second: bool)
    requires store.Valid()
    modifies store
    ensures first == (id in old(store.rows)) && !second
    ensures store.rows == old(store.rows) - {id}
  {
    first := store.DeleteProject(id);
    second := store.DeleteProject(id);
  }
}
