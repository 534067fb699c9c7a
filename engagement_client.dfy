/** The browser side of engagement tracking: the session-id latch and the
    transport choice of src/lib/engagement.ts, and the send-once latch of
    src/components/analytics/engagement-tracker.tsx. */
module EngagementClient {

  import opened Wrappers

  const SESSION_KEY: string := "ux_portfolio_session"

  /** `window.localStorage`, as a map from key to value. */
  class Storage {
    var entries: map<string, string>

    constructor (entries: map<string, string>)
      ensures this.entries == entries
    {
      this.entries := entries;
    }
  }

  /** The id `getSessionId` answers with: the stored one when it is a
      non-empty string, otherwise the freshly generated one. */
  function SessionFor(entries: map<string, string>, generated: string): (id: string)
    ensures SESSION_KEY in entries && entries[SESSION_KEY] != "" ==> id == entries[SESSION_KEY]
    ensures !(SESSION_KEY in entries && entries[SESSION_KEY] != "") ==> id == generated
  {
    if SESSION_KEY in entries && entries[SESSION_KEY] != "" then entries[SESSION_KEY] else generated
  }

  /** The storage after `getSessionId`: unchanged when an id was stored,
      otherwise with the generated id under the session key. */
  function Latched(entries: map<string, string>, generated: string): (after: map<string, string>)
    ensures SESSION_KEY in after && after[SESSION_KEY] == SessionFor(entries, generated)
    ensures forall k :: k != SESSION_KEY ==> (k in after <==> k in entries)
    ensures forall k :: k != SESSION_KEY && k in entries ==> after[k] == entries[k]
  {
    if SESSION_KEY in entries && entries[SESSION_KEY] != "" then entries else entries[SESSION_KEY := generated]
  }

  /** Once a non-empty id is latched, every later call returns it, whatever
      it generates, and leaves the storage as it is. */
  lemma LatchIsStable(entries: map<string, string>, g1: string, g2: string)
    requires g1 != ""
    ensures SessionFor(Latched(entries, g1), g2) == SessionFor(entries, g1)
    ensures Latched(Latched(entries, g1), g2) == Latched(entries, g1)
  {
  }

  /** `getSessionId()`: `None` outside a browser window; `generated` stands
      for `crypto.randomUUID()` or its time-based fallback. */
  method GetSessionId(hasWindow: bool, storage: Storage, generated: string) returns (id: Option<string>)
    modifies storage
    ensures !hasWindow ==> id.None? && storage.entries == old(storage.entries)
    ensures hasWindow ==> id == Some(SessionFor(old(storage.entries), generated))
    ensures hasWindow ==> storage.entries == Latched(old(storage.entries), generated)
  {
    if !hasWindow {
      return None;
    }
    if SESSION_KEY in storage.entries && storage.entries[SESSION_KEY] != "" {
      return Some(storage.entries[SESSION_KEY]);
    }
    storage.entries := storage.entries[SESSION_KEY := generated];
    id := Some(generated);
  }

  /** Two calls in one browser: the second returns the id of the first. */
  method SessionIdTwice(storage: Storage, g1: string, g2: string) returns (first: Option<string>, second: Option<string>)
    requires g1 != ""
    modifies storage
    ensures first.Some? && first == second
    ensures storage.entries == Latched(old(storage.entries), g1)
  {
    first := GetSessionId(true, storage, g1);
    LatchIsStable(old(storage.entries), g1, g2);
    second := GetSessionId(true, storage, g2);
  }

  /** What the page contributes to the body. */
  datatype PageContext = PageContext(pathname: string, referrer: string, userAgent: string)

  /** The JSON body sent to `/api/engagement`. */
  datatype TrackBody = TrackBody(
    projectSlug: string,
    projectId: Option<string>,
    eventType: string,
    sessionId: Option<string>,
    pathname: string,
    referrer: string,
    userAgent: string)

  /** What `trackEngagement` does: nothing, `navigator.sendBeacon`, or a
      keep-alive `fetch`. */
  datatype Transport = Skipped | Beacon(body: TrackBody) | Fetch(body: TrackBody)

  /** The outcome of `trackEngagement` for the storage as it was before the call. */
  function TrackOutcome(projectSlug: string, projectId: Option<string>, eventType: string, hasWindow: bool,
                        entries: map<string, string>, generated: string, page: PageContext, hasBeacon: bool)
    : (t: Transport)
    ensures t.Skipped? <==> projectSlug == "" || !hasWindow
    ensures !t.Skipped? ==> (t.Beacon? <==> hasBeacon)
    ensures !t.Skipped? ==>
      && t.body.projectSlug == projectSlug && t.body.projectId == projectId && t.body.eventType == eventType
      && t.body.sessionId == Some(SessionFor(entries, generated))
      && t.body.pathname == page.pathname && t.body.referrer == page.referrer && t.body.userAgent == page.userAgent
  {
    if projectSlug == "" || !hasWindow then Skipped
    else
      var body := TrackBody(projectSlug, projectId, eventType, Some(SessionFor(entries, generated)),
                            page.pathname, page.referrer, page.userAgent);
      if hasBeacon then Beacon(body) else Fetch(body)
  }

  /** `trackEngagement(payload)`; an absent `projectId` is sent as `null`. */
  method TrackEngagement(projectSlug: string, projectId: Option<string>, eventType: string, hasWindow: bool,
                         storage: Storage, generated: string, page: PageContext, hasBeacon: bool)
    returns (t: Transport)
    modifies storage
    ensures t == TrackOutcome(projectSlug, projectId, eventType, hasWindow, old(storage.entries), generated, page, hasBeacon)
    ensures t.Skipped? ==> storage.entries == old(storage.entries)
    ensures !t.Skipped? ==> storage.entries == Latched(old(storage.entries), generated)
  {
    if projectSlug == "" || !hasWindow {
      return Skipped;
    }
    var sessionId := GetSessionId(hasWindow, storage, generated);
    var body := TrackBody(projectSlug, projectId, eventType, sessionId, page.pathname, page.referrer, page.userAgent);
    if hasBeacon {
      return Beacon(body);
    }
    t := Fetch(body);
  }

  /** The `EngagementTracker` component instance: its props and the
      `sentRef` latch; `sends` counts the events it has handed to a transport. */
  class Tracker {
    const projectSlug: string
    const projectId: Option<string>
    const eventType: string
    var sent: bool
    ghost var sends: nat

    /** At most one event is ever sent, and only once the latch is set. */
    ghost predicate Valid()
      reads this
    {
      sends <= (if sent then 1 else 0)
    }

    /** Mounting: the event type defaults to `view`. */
    constructor (projectSlug: string, projectId: Option<string>, eventType: Option<string>)
      ensures Valid() && !sent && sends == 0
      ensures this.projectSlug == projectSlug && this.projectId == projectId
      ensures this.eventType == eventType.GetOr("view")
    {
      this.projectSlug := projectSlug;
      this.projectId := projectId;
      this.eventType := eventType.GetOr("view");
      sent := false;
      sends := 0;
    }

    /** One run of the effect: nothing once the latch is set or without a
        slug; otherwise set the latch, then track with the props unchanged. */
    method Effect(hasWindow: bool, storage: Storage, generated: string, page: PageContext, hasBeacon: bool)
      returns (t: Transport)
      requires Valid()
      modifies this, storage
      ensures Valid()
      ensures old(sent) || projectSlug == "" ==>
        t == Skipped && sent == old(sent) && sends == old(sends) && storage.entries == old(storage.entries)
      ensures !old(sent) && projectSlug != "" ==>
        && sent
        && t == TrackOutcome(projectSlug, projectId, eventType, hasWindow, old(storage.entries), generated, page, hasBeacon)
        && storage.entries == (if t.Skipped? then old(storage.entries) else Latched(old(storage.entries), generated))
        && sends == old(sends) + (if t.Skipped? then 0 else 1)
    {
      if projectSlug == "" || sent {
        return Skipped;
      }
      sent := true;
      t := TrackEngagement(projectSlug, projectId, eventType, hasWindow, storage, generated, page, hasBeacon);
      if !t.Skipped? {
        sends := sends + 1;
      }
    }
  }

  /** Re-running the effect never sends a second event. */
  method EffectTwice(tracker: Tracker, storage: Storage, g1: string, g2: string, page: PageContext, hasBeacon: bool)
    returns (first: Transport, second: Transport)
    requires tracker.Valid()
    modifies tracker, storage
    ensures tracker.Valid() && second == Skipped && tracker.sends <= 1
  {
    first := tracker.Effect(true, storage, g1, page, hasBeacon);
    second := tracker.Effect(true, storage, g2, page, hasBeacon);
  }
}
