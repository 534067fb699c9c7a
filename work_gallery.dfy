/** The list logic of the public work gallery,
    src/components/work/work-gallery.tsx: the cover style, the search match,
    the category and tag selectors, the headline stats, and the filtered,
    featured and listed projects. */
module WorkGallery {

  import opened Wrappers
  import opened Text
  import opened Seqs
  import opened ProjectModel

  const ALL: string := "All"
  const TOP_TAGS: nat := 6
  const SHADE: string := "linear-gradient(180deg, rgba(15, 23, 42, 0.25), rgba(15, 23, 42, 0.8)), url("

  /** A JavaScript truthiness test on an optional string. */
  predicate Truthy(v: Option<string>) {
    v.Some? && v.value != ""
  }

  // ---- cover style

  /** The inline style of a project card's cover. */
  datatype CoverStyle =
    | ImageCover(backgroundImage: string, color: string)
    | FillCover(background: string, color: string)

  /** `getCoverStyle`: the shaded image when the project has an image URL,
      otherwise its cover background; the text colour is always the cover's
      foreground. */
  function GetCoverStyle(p: Project): (style: CoverStyle)
    ensures style.color == p.cover.foreground
    ensures style.ImageCover? <==> Truthy(p.details.coverImageUrl)
    ensures style.FillCover? ==> style.background == p.cover.background
    ensures style.ImageCover? ==> SHADE <= style.backgroundImage
  {
    if Truthy(p.details.coverImageUrl) then ImageCover(SHADE + p.details.coverImageUrl.value + ")", p.cover.foreground)
    else FillCover(p.cover.background, p.cover.foreground)
  }

  /** The image URL can be read back from the style. */
  lemma CoverImageRecovered(p: Project)
    requires Truthy(p.details.coverImageUrl)
    ensures var bg := GetCoverStyle(p).backgroundImage;
      |bg| == |SHADE| + |p.details.coverImageUrl.value| + 1
      && bg[|SHADE|..|bg| - 1] == p.details.coverImageUrl.value
  {
    var url := p.details.coverImageUrl.value;
    assert (SHADE + url + ")")[|SHADE|..|SHADE| + |url|] == url;
  }

  // ---- search

  /** The values `matchesQuery` searches, in order: title, summary (or the
      overview without one), overview, category, client and the tags joined
      by spaces. */
  function SearchFields(p: Project): (fields: seq<Option<string>>)
    ensures |fields| == 6 && fields[0] == Some(p.title)
  {
    [Some(p.title),
     if p.details.summary.Some? then p.details.summary else p.details.overview,
     p.details.overview,
     p.details.category,
     p.details.client,
     Some(Join(p.lists.tags, " "))]
  }

  /** `.filter(Boolean)`: the values present and non-empty, in order. */
  function Present(vs: seq<Option<string>>): (r: seq<string>)
    ensures |r| <= |vs|
    ensures forall i :: 0 <= i < |r| ==> r[i] != ""
  {
    if vs == [] then []
    else (if Truthy(vs[0]) then [vs[0].value] else []) + Present(vs[1..])
  }

  /** The lower-cased text searched. */
  function Haystack(p: Project): string {
    Lower(Join(Present(SearchFields(p)), " "))
  }

  /** `matchesQuery`: every project matches the empty query; otherwise the
      query, lower-cased, must occur in the haystack. */
  predicate MatchesQuery(p: Project, query: string) {
    query == "" || Includes(Haystack(p), Lower(query))
  }

  /** Lower-casing works character by character, so it distributes over
      concatenation. */
  lemma LowerConcat(a: string, b: string)
    ensures Lower(a + b) == Lower(a) + Lower(b)
  {
    assert forall i :: 0 <= i < |a + b| ==> Lower(a + b)[i] == (Lower(a) + Lower(b))[i] by {
      forall i | 0 <= i < |a + b| ensures Lower(a + b)[i] == (Lower(a) + Lower(b))[i] {
        if i < |a| {
          assert (a + b)[i] == a[i];
        } else {
          assert (a + b)[i] == b[i - |a|];
        }
      }
    }
  }

  /** Every element of a join stands between two other strings. */
  lemma {:induction false} JoinHasElement(xs: seq<string>, sep: string, j: nat)
    requires j < |xs|
    ensures exists a, b :: Join(xs, sep) == a + xs[j] + b
    decreases |xs|
  {
    if |xs| == 1 {
      assert Join(xs, sep) == "" + xs[0] + "";
    } else if j == 0 {
      assert Join(xs, sep) == "" + xs[0] + (sep + Join(xs[1..], sep));
    } else {
      JoinHasElement(xs[1..], sep, j - 1);
      var a, b :| Join(xs[1..], sep) == a + xs[1..][j - 1] + b;
      assert Join(xs, sep) == (xs[0] + sep + a) + xs[j] + b;
    }
  }

  /** Every truthy field value is kept by `.filter(Boolean)`. */
  lemma {:induction false} PresentKeeps(vs: seq<Option<string>>, k: nat)
    requires k < |vs| && Truthy(vs[k])
    ensures vs[k].value in Present(vs)
  {
    if k > 0 {
      PresentKeeps(vs[1..], k - 1);
    }
  }

  /** A query found, case-insensitively, in any one of the searched values
      matches the project. */
  lemma FieldHitMatches(p: Project, query: string, k: nat)
    requires k < 6 && Truthy(SearchFields(p)[k])
    requires Includes(Lower(SearchFields(p)[k].value), Lower(query))
    ensures MatchesQuery(p, query)
  {
    var x := SearchFields(p)[k].value;
    var values := Present(SearchFields(p));
    PresentKeeps(SearchFields(p), k);
    var j :| 0 <= j < |values| && values[j] == x;
    JoinHasElement(values, " ", j);
    var a, b :| Join(values, " ") == a + x + b;
    LowerConcat(a + x, b);
    LowerConcat(a, x);
    IncludesInfix(Lower(a), Lower(x), Lower(b), Lower(query));
  }

  /** The search ignores the case of the query. */
  lemma QueryCaseInsensitive(p: Project, query: string)
    ensures MatchesQuery(p, query) == MatchesQuery(p, Lower(query))
  {
    LowerIdempotent(query);
  }

  // ---- categories and stats

  /** The values of `p.category` and of `p.client`, project by project. */
  function CategoriesOf(ps: seq<Project>): (vs: seq<Option<string>>)
    ensures |vs| == |ps| && forall i :: 0 <= i < |ps| ==> vs[i] == ps[i].details.category
  {
    if ps == [] then [] else [ps[0].details.category] + CategoriesOf(ps[1..])
  }

  function ClientsOf(ps: seq<Project>): (vs: seq<Option<string>>)
    ensures |vs| == |ps| && forall i :: 0 <= i < |ps| ==> vs[i] == ps[i].details.client
  {
    if ps == [] then [] else [ps[0].details.client] + ClientsOf(ps[1..])
  }

  /** `new Set(values.filter(Boolean))`: the distinct non-empty values. */
  function Distinct(vs: seq<Option<string>>): (r: set<string>)
    ensures |r| <= |vs|
    ensures forall s :: s in r <==> Some(s) in vs && s != ""
  {
    if vs == [] then {}
    else
      var rest := Distinct(vs[..|vs| - 1]);
      assert vs == vs[..|vs| - 1] + [vs[|vs| - 1]];
      if Truthy(vs[|vs| - 1]) then rest + {vs[|vs| - 1].value} else rest
  }

  /** Ascending in the sort order, hence without duplicates. */
  predicate StrictlySorted(xs: seq<string>) {
    forall i, j :: 0 <= i < j < |xs| ==> Less(xs[i], xs[j])
  }

  /** Insertion into an ascending sequence; a value already there is not
      inserted again. */
  function InsertSorted(x: string, xs: seq<string>): (r: seq<string>)
    requires StrictlySorted(xs)
    ensures StrictlySorted(r)
    ensures forall y :: y in r <==> y == x || y in xs
    ensures |r| == if x in xs then |xs| else |xs| + 1
  {
    if xs == [] then [x]
    else if x == xs[0] then xs
    else if Less(x, xs[0]) then
      assert forall j :: 0 < j < |xs| ==> Less(x, xs[j]) by {
        forall j | 0 < j < |xs| ensures Less(x, xs[j]) {
          LessTransitive(x, xs[0], xs[j]);
        }
      }
      assert x !in xs by {
        LessIrreflexive(x);
        assert forall j :: 0 <= j < |xs| ==> xs[j] != x;
      }
      [x] + xs
    else
      LessTotal(x, xs[0]);
      var rest := InsertSorted(x, xs[1..]);
      assert xs == [xs[0]] + xs[1..];
      assert forall k :: 0 <= k < |rest| ==> Less(xs[0], rest[k]) by {
        forall k | 0 <= k < |rest| ensures Less(xs[0], rest[k]) {
          assert rest[k] in rest;
          if rest[k] != x {
            var m :| 0 <= m < |xs[1..]| && xs[1..][m] == rest[k];
            assert xs[m + 1] == rest[k];
          }
        }
      }
      [xs[0]] + rest
  }

  /** The distinct non-empty values, sorted: `Array.from(new Set(...)).sort()`. */
  function SortedDistinct(vs: seq<Option<string>>): (r: seq<string>)
    ensures StrictlySorted(r)
    ensures forall s :: s in r <==> s in Distinct(vs)
    ensures |r| == |Distinct(vs)|
  {
    if vs == [] then []
    else
      var rest := SortedDistinct(vs[..|vs| - 1]);
      var last := vs[|vs| - 1];
      assert vs == vs[..|vs| - 1] + [last];
      if Truthy(last) then
        var d := Distinct(vs[..|vs| - 1]);
        assert Distinct(vs) == d + {last.value};
        assert last.value in d ==> d + {last.value} == d;
        assert last.value !in d ==> |d + {last.value}| == |d| + 1;
        InsertSorted(last.value, rest)
      else rest
  }

  /** `categories`: "All", then every distinct non-empty category once, sorted. */
  function Categories(ps: seq<Project>): (r: seq<string>)
    ensures |r| >= 1 && r[0] == ALL
    ensures StrictlySorted(r[1..])
    ensures forall c :: c in r[1..] <==> c != "" && exists i :: 0 <= i < |ps| && ps[i].details.category == Some(c)
  {
    var sorted := SortedDistinct(CategoriesOf(ps));
    assert ([ALL] + sorted)[1..] == sorted;
    [ALL] + sorted
  }

  /** One headline figure. */
  datatype Stat = Stat(value: string, labelText: string)

  /** `stats`: the number of projects, of distinct clients and of distinct
      categories, rendered as decimal text. */
  function Stats(ps: seq<Project>): (r: seq<Stat>)
    ensures |r| == 3
    ensures r[0].labelText == "Case Studies" && r[1].labelText == "Client Partners" && r[2].labelText == "Industries"
  {
    [Stat(IntToString(|ps|), "Case Studies"),
     Stat(IntToString(|Distinct(ClientsOf(ps))|), "Client Partners"),
     Stat(IntToString(|Distinct(CategoriesOf(ps))|), "Industries")]
  }

  /** The stats read back as the counts they render: the projects, the
      distinct non-empty clients and the distinct non-empty categories;
      neither distinct count exceeds the number of projects, and there is one
      category button per industry besides "All". */
  lemma StatsCounts(ps: seq<Project>)
    ensures ParseInt(Stats(ps)[0].value) == Some(|ps|)
    ensures ParseInt(Stats(ps)[1].value) == Some(|Distinct(ClientsOf(ps))|)
    ensures |Distinct(ClientsOf(ps))| <= |ps|
    ensures ParseInt(Stats(ps)[2].value) == Some(|Distinct(CategoriesOf(ps))|)
    ensures ParseInt(Stats(ps)[2].value) == Some(|Categories(ps)| - 1)
    ensures |Categories(ps)| - 1 <= |ps|
  {
    IntRoundTrip(|ps|);
    IntRoundTrip(|Distinct(ClientsOf(ps))|);
    IntRoundTrip(|Distinct(CategoriesOf(ps))|);
  }

  // ---- tags

  /** Every tag of every project, project by project, in order. */
  function AllTags(ps: seq<Project>): seq<string> {
    if ps == [] then [] else AllTags(ps[..|ps| - 1]) + ps[|ps| - 1].lists.tags
  }

  /** How often `t` occurs in `xs`. */
  function Occurrences(xs: seq<string>, t: string): (n: nat)
    ensures n <= |xs|
    ensures n > 0 <==> t in xs
  {
    if xs == [] then 0
    else
      assert xs == xs[..|xs| - 1] + [xs[|xs| - 1]];
      Occurrences(xs[..|xs| - 1], t) + if xs[|xs| - 1] == t then 1 else 0
  }

  /** The distinct values of `xs` in order of first appearance: the key order
      of a JavaScript `Map` filled from `xs`. */
  function FirstSeen(xs: seq<string>): (r: seq<string>)
    ensures forall i, j :: 0 <= i < j < |r| ==> r[i] != r[j]
    ensures forall t :: t in r <==> t in xs
  {
    if xs == [] then []
    else
      var rest := FirstSeen(xs[..|xs| - 1]);
      assert xs == xs[..|xs| - 1] + [xs[|xs| - 1]];
      if xs[|xs| - 1] in rest then rest else rest + [xs[|xs| - 1]]
  }

  lemma OccurrencesStep(xs: seq<string>, x: string, t: string)
    ensures Occurrences(xs + [x], t) == Occurrences(xs, t) + if x == t then 1 else 0
  {
    assert (xs + [x])[..|xs + [x]| - 1] == xs;
  }

  lemma FirstSeenStep(xs: seq<string>, x: string)
    ensures FirstSeen(xs + [x]) == if x in FirstSeen(xs) then FirstSeen(xs) else FirstSeen(xs) + [x]
  {
    assert (xs + [x])[..|xs + [x]| - 1] == xs;
  }

  lemma AllTagsStep(ps: seq<Project>, i: nat)
    requires i < |ps|
    ensures AllTags(ps[..i + 1]) == AllTags(ps[..i]) + ps[i].lists.tags
  {
    assert ps[..i + 1][..i] == ps[..i];
  }

  /** `keys` and `counts` are the `Map` built from `xs`: its keys in order of
      first appearance, each with its number of occurrences. */
  ghost predicate Tallied(keys: seq<string>, counts: map<string, nat>, xs: seq<string>) {
    && keys == FirstSeen(xs)
    && (forall t :: t in counts <==> t in keys)
    && (forall t :: t in counts ==> counts[t] == Occurrences(xs, t))
  }

  /** One `map.set(tag, (map.get(tag) ?? 0) + 1)` keeps the tally. */
  lemma TallyStep(keys: seq<string>, counts: map<string, nat>, xs: seq<string>, tag: string,
                  keys': seq<string>, counts': map<string, nat>)
    requires Tallied(keys, counts, xs)
    requires tag in counts ==> counts' == counts[tag := counts[tag] + 1] && keys' == keys
    requires tag !in counts ==> counts' == counts[tag := 1] && keys' == keys + [tag]
    ensures Tallied(keys', counts', xs + [tag])
  {
    FirstSeenStep(xs, tag);
    forall t | t in counts' ensures counts'[t] == Occurrences(xs + [tag], t) {
      OccurrencesStep(xs, tag, t);
    }
  }

  /** The counting pass of `tags`: a `Map` from each tag to its number of
      occurrences, with its keys in order of first appearance. */
  method CountTags(ps: seq<Project>) returns (keys: seq<string>, counts: map<string, nat>)
    ensures Tallied(keys, counts, AllTags(ps))
  {
    keys := [];
    counts := map[];
    var i := 0;
    while i < |ps|
      invariant 0 <= i <= |ps|
      invariant Tallied(keys, counts, AllTags(ps[..i]))
    {
      keys, counts := TallyTags(keys, counts, AllTags(ps[..i]), ps[i].lists.tags);
      AllTagsStep(ps, i);
      i := i + 1;
    }
    assert ps[..i] == ps;
  }

  /** The inner `forEach` of the counting pass: one project's tags added to
      the tally of the tags `seen` so far. */
  method TallyTags(keys: seq<string>, counts: map<string, nat>, ghost seen: seq<string>, tags: seq<string>)
    returns (keys': seq<string>, counts': map<string, nat>)
    requires Tallied(keys, counts, seen)
    ensures Tallied(keys', counts', seen + tags)
  {
    keys', counts' := keys, counts;
    var j := 0;
    assert seen + tags[..j] == seen;
    while j < |tags|
      invariant 0 <= j <= |tags|
      invariant Tallied(keys', counts', seen + tags[..j])
    {
      var tag := tags[j];
      assert seen + tags[..j + 1] == (seen + tags[..j]) + [tag];
      ghost var (keys0, counts0) := (keys', counts');
      if tag in counts' {
        counts' := counts'[tag := counts'[tag] + 1];
      } else {
        counts' := counts'[tag := 1];
        keys' := keys' + [tag];
      }
      TallyStep(keys0, counts0, seen + tags[..j], tag, keys', counts');
      j := j + 1;
    }
    assert tags[..j] == tags;
  }

  /** Counts never increase along the sequence. */
  predicate ByCountDesc(xs: seq<string>, all: seq<string>) {
    forall i, j :: 0 <= i < j < |xs| ==> Occurrences(all, xs[j]) <= Occurrences(all, xs[i])
  }

  /** Stable insertion by count: `t` goes after every entry counted at least
      as often. */
  function InsertByCount(t: string, xs: seq<string>, all: seq<string>): (r: seq<string>)
    requires ByCountDesc(xs, all)
    ensures ByCountDesc(r, all)
    ensures multiset(r) == multiset(xs) + multiset{t}
  {
    if xs == [] then [t]
    else if Occurrences(all, t) > Occurrences(all, xs[0]) then [t] + xs
    else
      var rest := InsertByCount(t, xs[1..], all);
      assert xs == [xs[0]] + xs[1..];
      assert forall k :: 0 <= k < |rest| ==> Occurrences(all, rest[k]) <= Occurrences(all, xs[0]) by {
        forall k | 0 <= k < |rest| ensures Occurrences(all, rest[k]) <= Occurrences(all, xs[0]) {
          assert rest[k] in multiset(rest);
          if rest[k] != t {
            assert rest[k] in multiset(xs[1..]);
            var m :| 0 <= m < |xs[1..]| && xs[1..][m] == rest[k];
            assert xs[m + 1] == rest[k];
          }
        }
      }
      [xs[0]] + rest
  }

  /** `.sort((a, b) => b[1] - a[1])` over the keys: ordered by count, most
      frequent first, a permutation of the keys. */
  function RankByCount(keys: seq<string>, all: seq<string>): (r: seq<string>)
    ensures ByCountDesc(r, all)
    ensures multiset(r) == multiset(keys)
  {
    if keys == [] then []
    else
      assert keys == keys[..|keys| - 1] + [keys[|keys| - 1]];
      InsertByCount(keys[|keys| - 1], RankByCount(keys[..|keys| - 1], all), all)
  }

  /** `top` lists tags of `all` once each, most frequent first, and no tag
      left out is more frequent than one listed. */
  ghost predicate MostFrequent(top: seq<string>, all: seq<string>) {
    && (forall i :: 0 <= i < |top| ==> top[i] in all)
    && (forall i, j :: 0 <= i < j < |top| ==> top[i] != top[j])
    && ByCountDesc(top, all)
    && (forall t, i :: t in all && t !in top && 0 <= i < |top| ==> Occurrences(all, t) <= Occurrences(all, top[i]))
  }

  /** `tags`: "All", then the (at most) six most frequent tags. */
  method Tags(ps: seq<Project>) returns (r: seq<string>)
    ensures |r| >= 1 && r[0] == ALL
    ensures |r| == 1 + if |FirstSeen(AllTags(ps))| < TOP_TAGS then |FirstSeen(AllTags(ps))| else TOP_TAGS
    ensures MostFrequent(r[1..], AllTags(ps))
  {
    var keys, counts := CountTags(ps);
    var all := AllTags(ps);
    var ranked := RankByCount(keys, all);
    RankingOfKeys(keys, ranked, all);
    var top := if |ranked| < TOP_TAGS then ranked else ranked[..TOP_TAGS];
    TopOfRanking(ranked, all, top);
    r := [ALL] + top;
    assert r[1..] == top;
  }

  /** A value repeated in a sequence occurs in it at least twice. */
  lemma RepeatMultiplicity(xs: seq<string>, i: nat, j: nat)
    requires i < j < |xs| && xs[i] == xs[j]
    ensures multiset(xs)[xs[i]] >= 2
  {
    assert xs == xs[..j] + xs[j..];
    assert xs[i] in xs[..j];
    assert xs[j..][0] == xs[j];
  }

  /** Each value of a duplicate-free sequence occurs once. */
  lemma {:induction false} DistinctMultiplicity(xs: seq<string>, x: string)
    requires forall i, j :: 0 <= i < j < |xs| ==> xs[i] != xs[j]
    ensures multiset(xs)[x] <= 1
  {
    if xs != [] {
      assert xs == [xs[0]] + xs[1..];
      DistinctMultiplicity(xs[1..], x);
      if x == xs[0] {
        assert x !in xs[1..];
      }
    }
  }

  /** A ranking of the first-seen keys has the same length, holds every tag
      once and nothing else. */
  lemma RankingOfKeys(keys: seq<string>, ranked: seq<string>, all: seq<string>)
    requires keys == FirstSeen(all) && multiset(ranked) == multiset(keys)
    ensures |ranked| == |keys|
    ensures forall t :: t in ranked <==> t in all
    ensures forall i, j :: 0 <= i < j < |ranked| ==> ranked[i] != ranked[j]
  {
    assert |ranked| == |multiset(ranked)| == |multiset(keys)| == |keys|;
    forall t ensures t in ranked <==> t in all {
      assert t in ranked <==> t in multiset(ranked);
      assert t in keys <==> t in multiset(keys);
    }
    forall i, j | 0 <= i < j < |ranked| ensures ranked[i] != ranked[j] {
      if ranked[i] == ranked[j] {
        RepeatMultiplicity(ranked, i, j);
        DistinctMultiplicity(keys, ranked[i]);
      }
    }
  }

  /** The head of a ranking: its entries are the most frequent, and every
      tag left out is counted no more often than any tag kept. */
  lemma TopOfRanking(ranked: seq<string>, all: seq<string>, top: seq<string>)
    requires ByCountDesc(ranked, all)
    requires forall t :: t in ranked <==> t in all
    requires forall i, j :: 0 <= i < j < |ranked| ==> ranked[i] != ranked[j]
    requires top == if |ranked| < TOP_TAGS then ranked else ranked[..TOP_TAGS]
    ensures MostFrequent(top, all)
  {
    forall t, i | t in all && t !in top && 0 <= i < |top| ensures Occurrences(all, t) <= Occurrences(all, top[i]) {
      var k :| 0 <= k < |ranked| && ranked[k] == t;
      assert top[i] == ranked[i];
      assert forall m :: 0 <= m < |top| ==> top[m] == ranked[m];
      assert k >= |top|;
    }
  }

  // ---- filtered, featured and listed projects

  /** The category, tag and search filters of `filteredProjects`. */
  predicate Selected(p: Project, activeCategory: string, activeTag: string, query: string) {
    && (activeCategory == ALL || p.details.category == Some(activeCategory))
    && (activeTag == ALL || activeTag in p.lists.tags)
    && MatchesQuery(p, query)
  }

  /** `filteredProjects`: the projects every filter accepts, in their order. */
  function FilteredProjects(ps: seq<Project>, activeCategory: string, activeTag: string, query: string)
    : (r: seq<Project>)
    ensures |r| <= |ps|
    ensures forall p :: p in r <==> p in ps && Selected(p, activeCategory, activeTag, query)
    ensures IsSubsequence(r, ps)
  {
    var keep := (p: Project) => Selected(p, activeCategory, activeTag, query);
    FilterIsSubsequence(keep, ps);
    Filter(keep, ps)
  }

  /** With every selector at "All" and an empty query, nothing is filtered out. */
  lemma NoFilterKeepsAll(ps: seq<Project>)
    ensures FilteredProjects(ps, ALL, ALL, "") == ps
  {
    FilterAll((p: Project) => Selected(p, ALL, ALL, ""), ps);
  }

  /** The index of `featuredProject`: the first featured project, else the
      first project, and none for an empty list. */
  function FeaturedIndex(ps: seq<Project>): (k: Option<nat>)
    ensures k.None? <==> ps == []
    ensures k.Some? ==> k.value < |ps|
    ensures k.Some? && ps[k.value].isFeatured ==> forall j :: 0 <= j < k.value ==> !ps[j].isFeatured
    ensures k.Some? && !ps[k.value].isFeatured ==> k.value == 0 && forall j :: 0 <= j < |ps| ==> !ps[j].isFeatured
  {
    if ps == [] then None
    else if ps[0].isFeatured then Some(0)
    else
      match FeaturedIndex(ps[1..])
      case Some(k) => if ps[k + 1].isFeatured then Some(k + 1) else Some(0)
      case None => Some(0)
  }

  function FeaturedProject(ps: seq<Project>): (f: Option<Project>)
    ensures f.None? <==> ps == []
    ensures f.Some? ==> f.value in ps
  {
    match FeaturedIndex(ps)
    case Some(k) => Some(ps[k])
    case None => None
  }

  /** `isFiltering`: a query that is not blank, or a selector other than "All". */
  predicate IsFiltering(query: string, activeCategory: string, activeTag: string) {
    |Trim(query)| > 0 || activeCategory != ALL || activeTag != ALL
  }

  /** `listProjects`: the filtered projects while filtering; otherwise every
      project except those sharing the featured project's slug. */
  function ListProjects(ps: seq<Project>, query: string, activeCategory: string, activeTag: string)
    : (r: seq<Project>)
    ensures IsFiltering(query, activeCategory, activeTag) ==>
      r == FilteredProjects(ps, activeCategory, activeTag, query)
    ensures !IsFiltering(query, activeCategory, activeTag) && ps != [] ==>
      forall p :: p in r <==> p in ps && p.slug != FeaturedProject(ps).value.slug
    ensures IsSubsequence(r, ps)
  {
    if IsFiltering(query, activeCategory, activeTag) then FilteredProjects(ps, activeCategory, activeTag, query)
    else
      match FeaturedProject(ps)
      case None =>
        assert ps == [];
        ps
      case Some(featured) =>
        var keep := (p: Project) => p.slug != featured.slug;
        FilterIsSubsequence(keep, ps);
        Filter(keep, ps)
  }

  /** Outside filtering the featured project is shown on its own and not
      listed again. */
  lemma FeaturedNotListed(ps: seq<Project>, query: string)
    requires ps != [] && |Trim(query)| == 0
    ensures FeaturedProject(ps).value !in ListProjects(ps, query, ALL, ALL)
  {
  }

  /** A blank query is not filtering, even though as a search it would only
      keep projects whose text holds those blanks. */
  lemma BlankQueryIsNotFiltering(ps: seq<Project>, query: string)
    requires query != "" && AllSpace(query)
    ensures !IsFiltering(query, ALL, ALL)
  {
    TrimEmpty(query);
  }
}
