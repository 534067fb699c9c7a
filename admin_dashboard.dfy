/** The logic of the admin dashboard, src/app/admin/page.tsx: the e-mail
    scrubbing and shape check of the one-time-password sign-in, the project
    counts, the engagement lookup by slug, and the sign-in state. */
module AdminDashboard {

  import opened Wrappers
  import opened Text
  import opened Seqs
  import opened ProjectModel
  import opened EngagementAggregator

  const ENTER_EMAIL: string := "Enter your email address."
  const INVALID_EMAIL: string := "Enter a valid email address."
  const ENTER_CODE: string := "Enter the verification code."
  const CHECK_EMAIL: string := "Check your email for the verification code."
  const SIGNED_IN: string := "Signed in."

  // ---- e-mail scrubbing and shape

  /** The characters the scrub removes: white space and the zero-width
      characters U+200B to U+200D and U+FEFF. */
  predicate Invisible(c: char) {
    IsSpace(c) || ('\U{200B}' <= c <= '\U{200D}') || c == '\U{FEFF}'
  }

  /** The e-mail as sent to the identity provider: trimmed, lower-cased and
      stripped of every invisible character. */
  function ScrubEmail(email: string): (r: string)
    ensures forall c :: c in r ==> !Invisible(c)
    ensures forall c :: c in r <==> c in Lower(Trim(email)) && !Invisible(c)
    ensures IsSubsequence(r, Lower(Trim(email)))
    ensures forall c :: multiset(r)[c] == if Invisible(c) then 0 else multiset(Lower(Trim(email)))[c]
  {
    var keep := (c: char) => !Invisible(c);
    FilterIsSubsequence(keep, Lower(Trim(email)));
    FilterMultiset(keep, Lower(Trim(email)));
    Filter(keep, Lower(Trim(email)))
  }

  /** An address made only of invisible characters (a blank one included)
      scrubs to the empty string. */
  lemma BlankEmailScrubsEmpty(email: string)
    requires forall i :: 0 <= i < |email| ==> Invisible(email[i])
    ensures ScrubEmail(email) == ""
  {
    TrimIsInfix(email);
    var lowered := Lower(Trim(email));
    forall k | 0 <= k < |lowered| ensures Invisible(lowered[k]) {
      assert Trim(email)[k] in email;
    }
    FilterNone((c: char) => !Invisible(c), lowered);
  }

  /** Neither white space nor "@". */
  predicate Plain(c: char) {
    c != '@' && !IsSpace(c)
  }

  /** A non-empty run of `[^\s@]`. */
  predicate PlainRun(s: string) {
    s != [] && forall i :: 0 <= i < |s| ==> Plain(s[i])
  }

  /** The pattern `^[^\s@]+@[^\s@]+\.[^\s@]+$` read literally. */
  ghost predicate MatchesEmailPattern(s: string) {
    exists a, b, c :: s == a + "@" + b + "." + c && PlainRun(a) && PlainRun(b) && PlainRun(c)
  }

  /** The index of the first "@", if any. */
  function AtIndex(s: string): (k: Option<nat>)
    ensures k.None? ==> forall i :: 0 <= i < |s| ==> s[i] != '@'
    ensures k.Some? ==> k.value < |s| && s[k.value] == '@' && forall i :: 0 <= i < k.value ==> s[i] != '@'
  {
    if s == [] then None
    else if s[0] == '@' then Some(0)
    else match AtIndex(s[1..])
      case None => None
      case Some(k) => Some(k + 1)
  }

  /** The shape check, read as a procedure: no white space, one "@" after a
      non-empty local part, and a "." inside the domain that is neither its
      first nor its last character. */
  predicate IsEmailShape(s: string) {
    && (forall i :: 0 <= i < |s| ==> !IsSpace(s[i]))
    && match AtIndex(s)
       case None => false
       case Some(k) =>
         var domain := s[k + 1..];
         && k > 0
         && (forall i :: 0 <= i < |domain| ==> domain[i] != '@')
         && exists i :: 1 <= i < |domain| - 1 && domain[i] == '.'
  }

  /** The procedure accepts exactly what the pattern matches. */
  lemma EmailShapeMatchesPattern(s: string)
    ensures IsEmailShape(s) <==> MatchesEmailPattern(s)
  {
    if IsEmailShape(s) {
      ShapeIsPattern(s);
    }
    if MatchesEmailPattern(s) {
      var a, b, c :| s == a + "@" + b + "." + c && PlainRun(a) && PlainRun(b) && PlainRun(c);
      PatternIsShape(s, a, b, c);
    }
  }

  lemma ShapeIsPattern(s: string)
    requires IsEmailShape(s)
    ensures MatchesEmailPattern(s)
  {
    var k := AtIndex(s).value;
    var domain := s[k + 1..];
    var i :| 1 <= i < |domain| - 1 && domain[i] == '.';
    var a, b, c := s[..k], domain[..i], domain[i + 1..];
    assert s == a + "@" + b + "." + c;
    forall j | 0 <= j < |domain| ensures Plain(domain[j]) {
      assert domain[j] == s[k + 1 + j];
    }
    assert PlainRun(a);
    assert forall j :: 0 <= j < |b| ==> b[j] == domain[j];
    assert PlainRun(b);
    assert forall j :: 0 <= j < |c| ==> c[j] == domain[i + 1 + j];
    assert PlainRun(c);
  }

  lemma PatternIsShape(s: string, a: string, b: string, c: string)
    requires s == a + "@" + b + "." + c && PlainRun(a) && PlainRun(b) && PlainRun(c)
    ensures IsEmailShape(s)
  {
    var domain := b + "." + c;
    assert s == a + "@" + domain;
    assert s[|a|] == '@';
    assert forall i :: 0 <= i < |a| ==> s[i] == a[i];
    var k := AtIndex(s).value;
    assert k == |a|;
    assert s[k + 1..] == domain;
    assert domain[|b|] == '.';
    assert forall i :: 0 <= i < |domain| ==> domain[i] != '@' && !IsSpace(domain[i]) by {
      forall i | 0 <= i < |domain| ensures domain[i] != '@' && !IsSpace(domain[i]) {
        if i < |b| {
          assert domain[i] == b[i];
        } else if i > |b| {
          assert domain[i] == c[i - |b| - 1];
        }
      }
    }
    assert forall i :: 0 <= i < |s| ==> !IsSpace(s[i]) by {
      forall i | 0 <= i < |s| ensures !IsSpace(s[i]) {
        if i < |a| {
          assert s[i] == a[i];
        } else if i > |a| {
          assert s[i] == domain[i - |a| - 1];
        }
      }
    }
  }

  // ---- counts and the engagement lookup

  /** `stats`: how many projects are published and how many featured. */
  function DashboardStats(ps: seq<Project>): (r: (nat, nat))
    ensures r.0 <= |ps| && r.1 <= |ps|
    ensures r.0 == |Filter((p: Project) => p.isPublished, ps)|
    ensures r.1 == |Filter((p: Project) => p.isFeatured, ps)|
  {
    (CountWhere((p: Project) => p.isPublished, ps), CountWhere((p: Project) => p.isFeatured, ps))
  }

  /** Every project is counted as published exactly when all of them are. */
  lemma {:induction false} AllPublishedCounted(ps: seq<Project>)
    ensures DashboardStats(ps).0 == |ps| <==> forall i :: 0 <= i < |ps| ==> ps[i].isPublished
  {
    var keep := (p: Project) => p.isPublished;
    if forall i :: 0 <= i < |ps| ==> ps[i].isPublished {
      FilterAll(keep, ps);
    } else {
      var i :| 0 <= i < |ps| && !ps[i].isPublished;
      FilterMissesOne(keep, ps, i);
    }
  }

  /** Filtering out an element shortens the sequence. */
  lemma {:induction false} FilterMissesOne<T(!new)>(keep: T -> bool, xs: seq<T>, i: nat)
    requires i < |xs| && !keep(xs[i])
    ensures |Filter(keep, xs)| < |xs|
  {
    assert xs == xs[..i] + [xs[i]] + xs[i + 1..];
    FilterConcat(keep, xs[..i] + [xs[i]], xs[i + 1..]);
    FilterConcat(keep, xs[..i], [xs[i]]);
    assert Filter(keep, [xs[i]]) == [] by {
      assert [xs[i]][1..] == [];
    }
  }

  /** The last entry with the slug, if there is one. */
  function LastWith(entries: seq<Totals>, slug: string): (r: Option<Totals>)
    ensures r.None? <==> forall i :: 0 <= i < |entries| ==> entries[i].slug != slug
    ensures r.Some? ==> r.value.slug == slug && r.value in entries
  {
    if entries == [] then None
    else if entries[|entries| - 1].slug == slug then Some(entries[|entries| - 1])
    else LastWith(entries[..|entries| - 1], slug)
  }

  /** The entry `LastWith` picks is the one no later entry with the same
      slug follows. */
  lemma {:induction false} LastWithIsLast(entries: seq<Totals>, slug: string, j: nat)
    requires j < |entries| && entries[j].slug == slug
    requires forall k :: j < k < |entries| ==> entries[k].slug != slug
    ensures LastWith(entries, slug) == Some(entries[j])
    decreases |entries|
  {
    if j < |entries| - 1 {
      LastWithIsLast(entries[..|entries| - 1], slug, j);
    }
  }

  /** `engagementBySlug`: one `map.set(entry.slug, entry)` per entry, so a
      later entry replaces an earlier one with the same slug. */
  method EngagementBySlug(entries: seq<Totals>) returns (bySlug: map<string, Totals>)
    ensures forall s :: s in bySlug <==> LastWith(entries, s).Some?
    ensures forall s :: s in bySlug ==> bySlug[s] == LastWith(entries, s).value
  {
    bySlug := map[];
    var i := 0;
    while i < |entries|
      invariant 0 <= i <= |entries|
      invariant forall s :: s in bySlug <==> LastWith(entries[..i], s).Some?
      invariant forall s :: s in bySlug ==> bySlug[s] == LastWith(entries[..i], s).value
    {
      assert entries[..i + 1][..i] == entries[..i];
      bySlug := bySlug[entries[i].slug := entries[i]];
      i := i + 1;
    }
    assert entries[..i] == entries;
  }

  /** The figures shown on a project's card: total, views, inquiries and
      sessions, zero for a slug without engagement. */
  function CardFigures(bySlug: map<string, Totals>, slug: string): (r: (nat, nat, nat, nat))
    ensures slug !in bySlug ==> r == (0, 0, 0, 0)
    ensures slug in bySlug ==>
      r == (bySlug[slug].total, bySlug[slug].views, bySlug[slug].inquiries, bySlug[slug].uniqueSessions)
  {
    if slug in bySlug then
      var e := bySlug[slug];
      (e.total, e.views, e.inquiries, e.uniqueSessions)
    else (0, 0, 0, 0)
  }

  // ---- the sign-in form

  /** What the sign-in form holds between events. */
  class SignIn {
    var email: string
    var otp: string
    var status: Option<string>
    var sending: bool
    var awaitingOtp: bool

    constructor ()
      ensures email == "" && otp == "" && status.None? && !sending && !awaitingOtp
    {
      email := "";
      otp := "";
      status := None;
      sending := false;
      awaitingOtp := false;
    }

    /** `handleLogin`. `request` is the address handed to the provider's
        one-time-password request, if any; `providerError` is its answer. */
    method HandleLogin(providerError: Option<string>) returns (request: Option<string>)
      modifies this
      ensures !sending && email == old(email) && otp == old(otp)
      ensures ScrubEmail(email) == "" ==>
        request.None? && status == Some(ENTER_EMAIL) && awaitingOtp == old(awaitingOtp)
      ensures ScrubEmail(email) != "" && !IsEmailShape(ScrubEmail(email)) ==>
        request.None? && status == Some(INVALID_EMAIL) && awaitingOtp == old(awaitingOtp)
      ensures ScrubEmail(email) != "" && IsEmailShape(ScrubEmail(email)) ==> request == Some(ScrubEmail(email))
      ensures request.Some? && providerError.Some? ==> status == providerError && awaitingOtp == old(awaitingOtp)
      ensures request.Some? && providerError.None? ==> status == Some(CHECK_EMAIL) && awaitingOtp
    {
      status := None;
      sending := true;
      var scrubbed := ScrubEmail(email);
      if scrubbed == "" {
        status := Some(ENTER_EMAIL);
        sending := false;
        return None;
      }
      if !IsEmailShape(scrubbed) {
        status := Some(INVALID_EMAIL);
        sending := false;
        return None;
      }
      request := Some(scrubbed);
      if providerError.Some? {
        status := providerError;
      } else {
        status := Some(CHECK_EMAIL);
        awaitingOtp := true;
      }
      sending := false;
    }

    /** `handleVerifyOtp`. `request` is the address and code handed to the
        provider's verification, if any; `providerError` is its answer. */
    method HandleVerifyOtp(providerError: Option<string>) returns (request: Option<(string, string)>)
      modifies this
      ensures email == old(email) && otp == old(otp) && sending == old(sending) && awaitingOtp == old(awaitingOtp)
      ensures ScrubEmail(email) == "" ==> request.None? && status == Some(ENTER_EMAIL)
      ensures ScrubEmail(email) != "" && Trim(otp) == "" ==> request.None? && status == Some(ENTER_CODE)
      ensures ScrubEmail(email) != "" && Trim(otp) != "" ==> request == Some((ScrubEmail(email), Trim(otp)))
      ensures request.Some? ==> status == if providerError.Some? then providerError else Some(SIGNED_IN)
    {
      status := None;
      var scrubbedEmail := ScrubEmail(email);
      var scrubbedOtp := Trim(otp);
      if scrubbedEmail == "" {
        status := Some(ENTER_EMAIL);
        return None;
      }
      if scrubbedOtp == "" {
        status := Some(ENTER_CODE);
        return None;
      }
      request := Some((scrubbedEmail, scrubbedOtp));
      status := if providerError.Some? then providerError else Some(SIGNED_IN);
    }

    /** `handleSignOut`: back to asking for an address, with the code cleared. */
    method HandleSignOut()
      modifies this
      ensures !awaitingOtp && otp == ""
      ensures email == old(email) && status == old(status) && sending == old(sending)
    {
      awaitingOtp := false;
      otp := "";
    }
  }
}
