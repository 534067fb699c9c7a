/** The recording endpoint of src/app/api/engagement/route.ts: validate one
    engagement event and append it to the `engagement_events` log. */
module EngagementRecorder {

  import opened Wrappers
  import opened Text

  /** One row of `engagement_events`; `createdAt` is the database's insertion
      time, in milliseconds. */
  datatype EventRow = EventRow(
    projectSlug: string,
    projectId: Option<string>,
    eventType: string,
    sessionId: Option<string>,
    pathname: Option<string>,
    referrer: Option<string>,
    userAgent: Option<string>,
    createdAt: int)

  /** The fields of a parsed request body; an absent field is `None`. */
  datatype EventPayload = EventPayload(
    eventType: Option<string>,
    projectSlug: Option<string>,
    projectId: Option<string>,
    sessionId: Option<string>,
    pathname: Option<string>,
    referrer: Option<string>,
    userAgent: Option<string>)

  /** The JSON answer: `{ok: true}` or an error with its status. */
  datatype Reply = Ok | Error(status: int, message: string)

  const INVALID_EVENT: string := "Invalid event type."
  const SLUG_REQUIRED: string := "Project slug is required."

  predicate ValidEvent(t: string) {
    t == "view" || t == "inquiry" || t == "click"
  }

  /** The checks before the insert: the event type, lower-cased, must be one
      of `view`, `inquiry`, `click`; then the trimmed slug must be non-empty.
      On success, the normalised type and slug. */
  function Validate(p: EventPayload): (r: Result<(string, string), Reply>)
    ensures r.Success? <==> ValidEvent(Lower(p.eventType.GetOr(""))) && Trim(p.projectSlug.GetOr("")) != ""
    ensures r.Success? ==> r.value == (Lower(p.eventType.GetOr("")), Trim(p.projectSlug.GetOr("")))
    ensures !ValidEvent(Lower(p.eventType.GetOr(""))) ==> r == Failure(Error(400, INVALID_EVENT))
    ensures ValidEvent(Lower(p.eventType.GetOr(""))) && Trim(p.projectSlug.GetOr("")) == "" ==>
      r == Failure(Error(400, SLUG_REQUIRED))
  {
    var eventType := Lower(p.eventType.GetOr(""));
    var projectSlug := Trim(p.projectSlug.GetOr(""));
    if !ValidEvent(eventType) then Failure(Error(400, INVALID_EVENT))
    else if projectSlug == "" then Failure(Error(400, SLUG_REQUIRED))
    else Success((eventType, projectSlug))
  }

  /** The row the insert writes for an accepted payload: optional fields the
      body left out are stored as `null`. */
  function NewRow(p: EventPayload, eventType: string, projectSlug: string, now: int): (row: EventRow)
    ensures row.projectSlug == projectSlug && row.eventType == eventType && row.createdAt == now
    ensures row.projectId == p.projectId && row.sessionId == p.sessionId
    ensures row.pathname == p.pathname && row.referrer == p.referrer && row.userAgent == p.userAgent
  {
    EventRow(projectSlug, p.projectId, eventType, p.sessionId, p.pathname, p.referrer, p.userAgent, now)
  }

  /** An upper-case type is accepted and stored lower-cased. */
  lemma UpperCaseTypeAccepted(p: EventPayload)
    requires p.eventType == Some("VIEW") && p.projectSlug == Some("home")
    ensures Validate(p) == Success(("view", "home"))
  {
    var l := Lower("VIEW");
    assert l[0] == 'v' && l[1] == 'i' && l[2] == 'e' && l[3] == 'w';
    assert l == "view";
    TrimOfTrimmed("home");
  }

  /** The type is checked before the slug: a bad type with an empty slug is
      reported as a bad type. */
  lemma TypeCheckedFirst(p: EventPayload)
    requires !ValidEvent(Lower(p.eventType.GetOr("")))
    requires Trim(p.projectSlug.GetOr("")) == ""
    ensures Validate(p) == Failure(Error(400, INVALID_EVENT))
  {
  }

  /** The `engagement_events` table, as an append-only log. */
  class EventLog {
    var events: seq<EventRow>

    constructor ()
      ensures events == []
    {
      events := [];
    }

    /** `POST /api/engagement`. The body either parsed (`Success`) or threw
        with a message; `insertError` is the database's answer to the insert. */
    method Record(body: Result<EventPayload, string>, insertError: Option<string>, now: int) returns (reply: Reply)
      modifies this
      ensures body.Failure? ==> reply == Error(400, body.error) && events == old(events)
      ensures body.Success? && Validate(body.value).Failure? ==>
        reply == Validate(body.value).error && events == old(events)
      ensures body.Success? && Validate(body.value).Success? && insertError.Some? ==>
        reply == Error(500, insertError.value) && events == old(events)
      ensures body.Success? && Validate(body.value).Success? && insertError.None? ==>
        && reply == Ok
        && events == old(events) + [NewRow(body.value, Validate(body.value).value.0, Validate(body.value).value.1, now)]
      ensures reply == Ok <==> |events| == |old(events)| + 1
      ensures events[..|old(events)|] == old(events)
    {
      if body.Failure? {
        return Error(400, body.error);
      }
      var checked := Validate(body.value);
      if checked.Failure? {
        return checked.error;
      }
      if insertError.Some? {
        return Error(500, insertError.value);
      }
      var (eventType, projectSlug) := checked.value;
      events := events + [NewRow(body.value, eventType, projectSlug, now)];
      reply := Ok;
    }
  }
}
