/** Calendar access through the Google Calendar and Microsoft Graph APIs:
    the per-integration event cache, the mapping of each API's event
    records onto `CalendarEvent`, and the manager that merges the
    integrations. API calls are replaced by their responses, passed in;
    `None` stands for a call that raised. */
module Calendar {
  import opened Text

  /** A calendar event as the bot uses it; instants are seconds. */
  datatype CalendarEvent = CalendarEvent(
    id: string,
    title: string,
    start: int,
    end: int,
    attendees: seq<string>,
    description: Option<string>,
    location: Option<string>,
    meetingUrl: Option<string>,
    isRecurring: bool,
    seriesId: Option<string>)

  const HourSeconds: int := 3600
  const WeekSeconds: int := 7 * 86400
  const CacheLifetime: int := 5 * 60

  function StartOf(e: CalendarEvent): int {
    e.start
  }

  /** The ISO text as `fromisoformat` receives it: a trailing `Z` is written
      as `+00:00`. */
  function IsoInput(text: string): string {
    ReplaceAll(text, "Z", "+00:00")
  }

  // ---------------------------------------------------------------------
  // Google Calendar records

  /** `start`/`end` of a Google event: a `dateTime` or an all-day `date`. */
  datatype GoogleTime = GoogleTime(dateTime: Option<string>, date: Option<string>)
  datatype GoogleAttendee = GoogleAttendee(email: Option<string>, displayName: Option<string>)
  datatype EntryPoint = EntryPoint(entryPointType: Option<string>, uri: Option<string>)

  /** A Google event record; `None` is an absent key, and `conferenceData`
      holds its entry points (empty when it has none). */
  datatype GoogleEvent = GoogleEvent(
    id: Option<string>,
    summary: Option<string>,
    start: Option<GoogleTime>,
    end: Option<GoogleTime>,
    attendees: seq<GoogleAttendee>,
    description: Option<string>,
    location: Option<string>,
    conferenceData: Option<seq<EntryPoint>>,
    recurringEventId: Option<string>)

  /** `t.get('dateTime', t.get('date'))`. */
  function GoogleTimeText(t: GoogleTime): Option<string> {
    if t.dateTime.Some? then t.dateTime else t.date
  }

  /** An attendee's name: `displayName`, else the email, else `""`. */
  function GoogleAttendeeName(a: GoogleAttendee): string {
    if a.displayName.Some? then a.displayName.value
    else if a.email.Some? then a.email.value
    else ""
  }

  function GoogleAttendees(as_: seq<GoogleAttendee>): (names: seq<string>)
    ensures |names| == |as_|
    ensures forall i :: 0 <= i < |as_| ==> names[i] == GoogleAttendeeName(as_[i])
  {
    if as_ == [] then [] else [GoogleAttendeeName(as_[0])] + GoogleAttendees(as_[1..])
  }

  /** The uri of the first entry point of type `video`; `None` when there is
      no such entry point (or it has no uri). */
  function FirstVideoUri(eps: seq<EntryPoint>): (r: Option<string>)
    ensures r.Some? ==> exists i :: 0 <= i < |eps| && eps[i].entryPointType == Some("video") && eps[i].uri == r
                                    && forall j :: 0 <= j < i ==> eps[j].entryPointType != Some("video")
    ensures (forall i :: 0 <= i < |eps| ==> eps[i].entryPointType != Some("video")) ==> r.None?
  {
    if eps == [] then None
    else if eps[0].entryPointType == Some("video") then eps[0].uri
    else
      var r := FirstVideoUri(eps[1..]);
      assert r.Some? ==>
        (exists i :: 0 <= i < |eps| - 1 && eps[1..][i].entryPointType == Some("video")
           && eps[1..][i].uri == r && forall j :: 0 <= j < i ==> eps[1..][j].entryPointType != Some("video"));
      r
  }

  /** The start instant: the parse of its text, "now" when the record has
      neither `dateTime` nor `date`, `None` when the text does not parse;
      the empty text is one `fromisoformat` always rejects. */
  function GoogleStart(t: GoogleTime, now: int, parseIso: string -> Option<int>): (r: Option<int>)
    ensures GoogleTimeText(t).None? ==> r == Some(now)
    ensures GoogleTimeText(t) == Some("") ==> r.None?
    ensures GoogleTimeText(t).Some? && GoogleTimeText(t).value != "" ==> r == parseIso(IsoInput(GoogleTimeText(t).value))
  {
    var text := GoogleTimeText(t);
    if text.None? then Some(now)
    else if text.value == "" then None
    else parseIso(IsoInput(text.value))
  }

  /** The end instant; one hour after the start when the record has no text,
      and `None` for an empty or unparseable text. */
  function GoogleEnd(t: GoogleTime, start: int, parseIso: string -> Option<int>): (r: Option<int>)
    ensures GoogleTimeText(t).None? ==> r == Some(start + HourSeconds)
    ensures GoogleTimeText(t) == Some("") ==> r.None?
    ensures GoogleTimeText(t).Some? && GoogleTimeText(t).value != "" ==> r == parseIso(IsoInput(GoogleTimeText(t).value))
  {
    var text := GoogleTimeText(t);
    if text.None? then Some(start + HourSeconds)
    else if text.value == "" then None
    else parseIso(IsoInput(text.value))
  }

  /** `_parse_google_event`; `None` for a record the source fails to parse
      (no `id`, `start` or `end`, or a time text that does not parse). */
  function ParseGoogleEvent(e: GoogleEvent, now: int, parseIso: string -> Option<int>): (r: Option<CalendarEvent>)
    ensures r.Some? <==> e.id.Some? && e.start.Some? && e.end.Some?
                         && GoogleStart(e.start.value, now, parseIso).Some?
                         && GoogleEnd(e.end.value, GoogleStart(e.start.value, now, parseIso).value, parseIso).Some?
    ensures e.start.Some? && GoogleTimeText(e.start.value) == Some("") ==> r.None?
    ensures e.end.Some? && GoogleTimeText(e.end.value) == Some("") ==> r.None?
    ensures r.Some? ==> var ev := r.value;
      && ev.id == e.id.value
      && ev.title == (if e.summary.Some? then e.summary.value else "Untitled Event")
      && (GoogleTimeText(e.start.value).None? ==> ev.start == now)
      && (GoogleTimeText(e.start.value).Some? ==> Some(ev.start) == parseIso(IsoInput(GoogleTimeText(e.start.value).value)))
      && (GoogleTimeText(e.end.value).None? ==> ev.end == ev.start + HourSeconds)
      && (GoogleTimeText(e.end.value).Some? ==> Some(ev.end) == parseIso(IsoInput(GoogleTimeText(e.end.value).value)))
      && (ev.isRecurring <==> e.recurringEventId.Some?)
      && ev.seriesId == e.recurringEventId
      && ev.attendees == GoogleAttendees(e.attendees)
      && |ev.attendees| == |e.attendees|
      && ev.description == e.description
      && ev.location == e.location
      && (e.conferenceData.None? ==> ev.meetingUrl.None?)
      && (e.conferenceData.Some? ==> ev.meetingUrl == FirstVideoUri(e.conferenceData.value))
  {
    if e.id.None? || e.start.None? || e.end.None? then None
    else
      var start := GoogleStart(e.start.value, now, parseIso);
      if start.None? then None
      else
        var end := GoogleEnd(e.end.value, start.value, parseIso);
        if end.None? then None
        else
          Some(CalendarEvent(
            id := e.id.value,
            title := if e.summary.Some? then e.summary.value else "Untitled Event",
            start := start.value,
            end := end.value,
            attendees := GoogleAttendees(e.attendees),
            description := e.description,
            location := e.location,
            meetingUrl := if e.conferenceData.Some? then FirstVideoUri(e.conferenceData.value) else None,
            isRecurring := e.recurringEventId.Some?,
            seriesId := e.recurringEventId))
  }

  // ---------------------------------------------------------------------
  // Microsoft Graph (Outlook) records

  datatype OutlookTime = OutlookTime(dateTime: Option<string>)
  datatype EmailAddress = EmailAddress(name: Option<string>, address: Option<string>)
  datatype OutlookAttendee = OutlookAttendee(emailAddress: Option<EmailAddress>)
  datatype OnlineMeeting = OnlineMeeting(joinUrl: Option<string>)
  datatype OutlookLocation = OutlookLocation(displayName: Option<string>)

  /** An Outlook event record; `None` is an absent key. */
  datatype OutlookEvent = OutlookEvent(
    id: Option<string>,
    subject: Option<string>,
    start: Option<OutlookTime>,
    end: Option<OutlookTime>,
    attendees: seq<OutlookAttendee>,
    bodyPreview: Option<string>,
    location: Option<OutlookLocation>,
    isOnlineMeeting: bool,
    onlineMeeting: Option<OnlineMeeting>,
    eventType: Option<string>,
    seriesMasterId: Option<string>)

  /** `name or email`, each defaulting to `""`. */
  function OutlookAttendeeName(a: OutlookAttendee): (name: string)
    ensures a.emailAddress.Some? && a.emailAddress.value.name.Some? && a.emailAddress.value.name.value != ""
            ==> name == a.emailAddress.value.name.value
    ensures (a.emailAddress.None? || a.emailAddress.value.name.None? || a.emailAddress.value.name.value == "")
            ==> name == (if a.emailAddress.Some? && a.emailAddress.value.address.Some?
                         then a.emailAddress.value.address.value else "")
    ensures name != "" ==> a.emailAddress.Some?
  {
    var addr := if a.emailAddress.Some? then a.emailAddress.value else EmailAddress(None, None);
    var n := if addr.name.Some? then addr.name.value else "";
    var m := if addr.address.Some? then addr.address.value else "";
    if n != "" then n else m
  }

  function OutlookAttendees(as_: seq<OutlookAttendee>): (names: seq<string>)
    ensures |names| == |as_|
    ensures forall i :: 0 <= i < |as_| ==> names[i] == OutlookAttendeeName(as_[i])
  {
    if as_ == [] then [] else [OutlookAttendeeName(as_[0])] + OutlookAttendees(as_[1..])
  }

  /** The parse of an Outlook time; a missing `dateTime` is the empty text,
      which `fromisoformat` always rejects. */
  function OutlookInstant(t: OutlookTime, parseIso: string -> Option<int>): (r: Option<int>)
    ensures t.dateTime.None? || t.dateTime.value == "" ==> r.None?
    ensures t.dateTime.Some? && t.dateTime.value != "" ==> r == parseIso(IsoInput(t.dateTime.value))
  {
    if t.dateTime.None? || t.dateTime.value == "" then None
    else parseIso(IsoInput(t.dateTime.value))
  }

  /** `_parse_outlook_event`; `None` for a record the source fails to parse. */
  function ParseOutlookEvent(e: OutlookEvent, parseIso: string -> Option<int>): (r: Option<CalendarEvent>)
    ensures r.Some? <==> e.id.Some? && e.start.Some? && e.end.Some?
                         && OutlookInstant(e.start.value, parseIso).Some?
                         && OutlookInstant(e.end.value, parseIso).Some?
    ensures r.Some? ==> var ev := r.value;
      && ev.id == e.id.value
      && ev.title == (if e.subject.Some? then e.subject.value else "Untitled Event")
      && (ev.isRecurring <==> e.eventType == Some("occurrence"))
      && ev.seriesId == e.seriesMasterId
      && Some(ev.start) == OutlookInstant(e.start.value, parseIso)
      && Some(ev.end) == OutlookInstant(e.end.value, parseIso)
      && ev.attendees == OutlookAttendees(e.attendees)
      && |ev.attendees| == |e.attendees|
      && ev.description == e.bodyPreview
      && ev.location == (if e.location.Some? then e.location.value.displayName else None)
      && (!e.isOnlineMeeting ==> ev.meetingUrl.None?)
      && (e.isOnlineMeeting ==> ev.meetingUrl == (if e.onlineMeeting.Some? then e.onlineMeeting.value.joinUrl else None))
  {
    if e.id.None? || e.start.None? || e.end.None? then None
    else
      var start := OutlookInstant(e.start.value, parseIso);
      var end := OutlookInstant(e.end.value, parseIso);
      if start.None? || end.None? then None
      else
        Some(CalendarEvent(
          id := e.id.value,
          title := if e.subject.Some? then e.subject.value else "Untitled Event",
          start := start.value,
          end := end.value,
          attendees := OutlookAttendees(e.attendees),
          description := e.bodyPreview,
          location := if e.location.Some? then e.location.value.displayName else None,
          meetingUrl := if e.isOnlineMeeting && e.onlineMeeting.Some? then e.onlineMeeting.value.joinUrl else None,
          isRecurring := e.eventType == Some("occurrence"),
          seriesId := e.seriesMasterId))
  }

  /** A record from either API. */
  datatype RawEvent = FromGoogle(google: GoogleEvent) | FromOutlook(outlook: OutlookEvent)

  function ParseEvent(raw: RawEvent, now: int, parseIso: string -> Option<int>): Option<CalendarEvent> {
    match raw
    case FromGoogle(g) => ParseGoogleEvent(g, now, parseIso)
    case FromOutlook(o) => ParseOutlookEvent(o, parseIso)
  }

  function Parser(now: int, parseIso: string -> Option<int>): RawEvent -> Option<CalendarEvent> {
    raw => ParseEvent(raw, now, parseIso)
  }

  // ---------------------------------------------------------------------
  // The event cache

  /** The cache the source builds from `events`: each id bound to the last
      event carrying it. */
  function ById(events: seq<CalendarEvent>): map<string, CalendarEvent>
    decreases |events|
  {
    if events == [] then map[]
    else
      var last := events[|events| - 1];
      ById(events[..|events| - 1])[last.id := last]
  }

  /** The ids in the order the dictionary first received them (the order of
      its `values()`). */
  function IdOrder(events: seq<CalendarEvent>): seq<string>
    decreases |events|
  {
    if events == [] then []
    else
      var init := events[..|events| - 1];
      var last := events[|events| - 1];
      if last.id in ById(init) then IdOrder(init) else IdOrder(init) + [last.id]
  }

  predicate Distinct(ks: seq<string>) {
    forall i, j :: 0 <= i < j < |ks| ==> ks[i] != ks[j]
  }

  /** The cache maps each id of `events` to the last event with that id, has
      no other keys, and the order lists every key once. */
  lemma ByIdFacts(events: seq<CalendarEvent>)
    ensures forall k :: k in ById(events) <==> exists i :: 0 <= i < |events| && events[i].id == k
    ensures forall k :: k in ById(events) ==>
              (exists i :: 0 <= i < |events| && events[i].id == k
                 && ById(events)[k] == events[i] && forall j :: i < j < |events| ==> events[j].id != k)
    ensures forall k :: k in IdOrder(events) <==> k in ById(events)
    ensures Distinct(IdOrder(events))
  {
    ByIdEntries(events);
    IdOrderFacts(events);
  }

  /** The order lists every key of the cache exactly once. */
  lemma {:induction false} IdOrderFacts(events: seq<CalendarEvent>)
    ensures forall k :: k in IdOrder(events) <==> k in ById(events)
    ensures Distinct(IdOrder(events))
    decreases |events|
  {
    if events != [] {
      IdOrderFacts(events[..|events| - 1]);
    }
  }

  lemma {:induction false} ByIdEntries(events: seq<CalendarEvent>)
    ensures forall k :: k in ById(events) <==> exists i :: 0 <= i < |events| && events[i].id == k
    ensures forall k :: k in ById(events) ==>
              (exists i :: 0 <= i < |events| && events[i].id == k
                 && ById(events)[k] == events[i] && forall j :: i < j < |events| ==> events[j].id != k)
    decreases |events|
  {
    if events != [] {
      var init := events[..|events| - 1];
      var last := events[|events| - 1];
      ByIdEntries(init);
      forall k | k in ById(events)
        ensures exists i :: 0 <= i < |events| && events[i].id == k
                  && ById(events)[k] == events[i] && forall j :: i < j < |events| ==> events[j].id != k
      {
        if k == last.id {
          assert events[|events| - 1].id == k;
        } else {
          var i :| 0 <= i < |init| && init[i].id == k && ById(init)[k] == init[i]
                   && forall j :: i < j < |init| ==> init[j].id != k;
          assert events[i] == init[i];
        }
      }
      forall k | exists i :: 0 <= i < |events| && events[i].id == k
        ensures k in ById(events)
      {
        var i :| 0 <= i < |events| && events[i].id == k;
        if i < |init| {
          assert init[i].id == k;
        }
      }
    }
  }

  /** The cached events in dictionary order. */
  function ValuesInOrder(cache: map<string, CalendarEvent>, order: seq<string>): (vs: seq<CalendarEvent>)
    requires forall k <- order :: k in cache
    ensures |vs| == |order|
    ensures forall i :: 0 <= i < |order| ==> vs[i] == cache[order[i]]
  {
    if order == [] then [] else [cache[order[0]]] + ValuesInOrder(cache, order[1..])
  }

  predicate CacheShape(cache: map<string, CalendarEvent>, order: seq<string>) {
    && (forall k <- order :: k in cache)
    && (forall k <- cache :: k in order)
    && Distinct(order)
  }

  /** The request window: `time_min` defaulting to now, `time_max` to one
      week after `time_min`. */
  function Window(timeMin: Option<int>, timeMax: Option<int>, now: int): (w: (int, int))
    ensures timeMin.None? ==> w.0 == now
    ensures timeMin.Some? ==> w.0 == timeMin.value
    ensures timeMax.None? ==> w.1 == w.0 + WeekSeconds
    ensures timeMax.Some? ==> w.1 == timeMax.value
  {
    var lo := if timeMin.Some? then timeMin.value else now;
    (lo, if timeMax.Some? then timeMax.value else lo + WeekSeconds)
  }

  datatype Provider = Google | Outlook

  /** The state shared by both integrations: the events cache, its order and
      its expiry. `serviceReady` says whether the Google service was built
      (the Outlook integration needs none). */
  class CalendarIntegration {
    const provider: Provider
    var serviceReady: bool
    var eventsCache: map<string, CalendarEvent>
    var cacheOrder: seq<string>
    var cacheExpiry: Option<int>

    ghost predicate Valid()
      reads this
    {
      CacheShape(eventsCache, cacheOrder)
    }

    constructor(provider: Provider, serviceReady: bool)
      ensures Valid()
      ensures this.provider == provider && this.serviceReady == serviceReady
      ensures eventsCache == map[] && cacheOrder == [] && cacheExpiry.None?
    {
      this.provider := provider;
      this.serviceReady := serviceReady;
      eventsCache := map[];
      cacheOrder := [];
      cacheExpiry := None;
    }

    predicate HasService()
      reads this
    {
      provider.Outlook? || serviceReady
    }

    /** `_is_cache_valid`: false before the first update, and afterwards
        exactly while `now` is before the expiry. */
    predicate IsCacheValid(now: int)
      reads this
    {
      cacheExpiry.Some? && now < cacheExpiry.value
    }

    function CachedEvents(): seq<CalendarEvent>
      reads this
      requires Valid()
    {
      ValuesInOrder(eventsCache, cacheOrder)
    }

    /** `_update_cache`: clears the cache, stores each event under its id in
        order (so a later duplicate replaces an earlier one) and sets the
        expiry to five minutes after `now`. */
    method UpdateCache(events: seq<CalendarEvent>, now: int)
      modifies this
      ensures Valid()
      ensures eventsCache == ById(events) && cacheOrder == IdOrder(events)
      ensures cacheExpiry == Some(now + CacheLifetime)
      ensures forall t :: IsCacheValid(t) <==> t < now + CacheLifetime
      ensures serviceReady == old(serviceReady)
    {
      eventsCache := map[];
      cacheOrder := [];
      for i := 0 to |events|
        invariant eventsCache == ById(events[..i]) && cacheOrder == IdOrder(events[..i])
        invariant serviceReady == old(serviceReady)
      {
        assert events[..i + 1][..i] == events[..i];
        var e := events[i];
        if e.id !in eventsCache {
          cacheOrder := cacheOrder + [e.id];
        }
        eventsCache := eventsCache[e.id := e];
      }
      assert events[..|events|] == events;
      ByIdFacts(events);
      cacheExpiry := Some(now + CacheLifetime);
    }

    /** `get_upcoming_events`. Without a Google service there are no events.
        The cache is served only when it is valid and neither bound is
        given; otherwise the API is asked for `Window(timeMin, timeMax, now)`
        (returned as `request`), and its `response` is parsed, the records
        that fail to parse are skipped and the cache is refilled. A failed
        call yields no events and leaves the cache alone. */
    method GetUpcomingEvents(timeMin: Option<int>, timeMax: Option<int>, now: int,
                             response: Option<seq<RawEvent>>, parseIso: string -> Option<int>)
      returns (events: seq<CalendarEvent>, request: Option<(int, int)>)
      requires Valid()
      modifies this
      ensures Valid() && serviceReady == old(serviceReady)
      ensures !HasService() ==> events == [] && request.None? && unchanged(this)
      ensures HasService() && old(IsCacheValid(now)) && timeMin.None? && timeMax.None? ==>
                events == old(CachedEvents()) && request.None? && unchanged(this)
      ensures HasService() && !(old(IsCacheValid(now)) && timeMin.None? && timeMax.None?) ==>
                request == Some(Window(timeMin, timeMax, now))
                && (response.None? ==> events == [] && unchanged(this))
                && (response.Some? ==> events == Somes(response.value, Parser(now, parseIso))
                                       && eventsCache == ById(events) && cacheOrder == IdOrder(events)
                                       && cacheExpiry == Some(now + CacheLifetime))
    {
      if !HasService() {
        return [], None;
      }
      if IsCacheValid(now) && timeMin.None? && timeMax.None? {
        return CachedEvents(), None;
      }
      request := Some(Window(timeMin, timeMax, now));
      if response.None? {
        return [], request;
      }
      events := CollectSome(response.value, Parser(now, parseIso));
      UpdateCache(events, now);
    }

    /** `get_event_by_id`: without a Google service, `None`; a cached event is
        returned as cached; otherwise the fetched record is parsed. */
    method GetEventById(id: string, now: int, fetched: Option<RawEvent>, parseIso: string -> Option<int>)
      returns (r: Option<CalendarEvent>)
      ensures !HasService() ==> r.None?
      ensures HasService() && id in eventsCache ==> r == Some(eventsCache[id])
      ensures HasService() && id !in eventsCache ==>
                r == (if fetched.Some? then ParseEvent(fetched.value, now, parseIso) else None)
    {
      if !HasService() {
        return None;
      }
      if id in eventsCache {
        return Some(eventsCache[id]);
      }
      if fetched.None? {
        return None;
      }
      r := ParseEvent(fetched.value, now, parseIso);
    }
  }

  /** After a refill, a lookup by id finds the last event with that id, and
      only ids of the refill are cached. */
  lemma LaterDuplicateWins(events: seq<CalendarEvent>, i: nat)
    requires i < |events|
    requires forall j :: i < j < |events| ==> events[j].id != events[i].id
    ensures events[i].id in ById(events) && ById(events)[events[i].id] == events[i]
  {
    ByIdFacts(events);
    var k := events[i].id;
    var i' :| 0 <= i' < |events| && events[i'].id == k && ById(events)[k] == events[i']
              && forall j :: i' < j < |events| ==> events[j].id != k;
    assert i' == i;
  }

  // ---------------------------------------------------------------------
  // The manager over several integrations

  /** The events of the integrations that answered, in integration order;
      `None` is an integration that raised. */
  function Gathered(results: seq<Option<seq<CalendarEvent>>>): seq<CalendarEvent>
    decreases |results|
  {
    if results == [] then []
    else
      var last := results[|results| - 1];
      Gathered(results[..|results| - 1]) + (if last.Some? then last.value else [])
  }

  /** `CalendarManager.get_all_upcoming_events`: the events of every
      integration that answered, sorted by start (stably). */
  method GetAllUpcomingEvents(results: seq<Option<seq<CalendarEvent>>>) returns (all: seq<CalendarEvent>)
    ensures all == SortBy(Gathered(results), StartOf)
    ensures SortedBy(all, StartOf) && multiset(all) == multiset(Gathered(results))
  {
    all := [];
    for i := 0 to |results|
      invariant all == Gathered(results[..i])
    {
      assert results[..i + 1][..i] == results[..i];
      if results[i].Some? {
        all := all + results[i].value;
      }
    }
    assert results[..|results|] == results;
    SortByFacts(all, StartOf);
    all := SortBy(all, StartOf);
  }

  /** An integration that raised contributes nothing, and one that answered
      contributes all its events. */
  lemma {:induction false} GatheredMembers(results: seq<Option<seq<CalendarEvent>>>, e: CalendarEvent)
    ensures e in Gathered(results) <==> exists i :: 0 <= i < |results| && results[i].Some? && e in results[i].value
    decreases |results|
  {
    if results != [] {
      var init := results[..|results| - 1];
      GatheredMembers(init, e);
      if e in Gathered(init) {
        var i :| 0 <= i < |init| && init[i].Some? && e in init[i].value;
        assert results[i] == init[i];
      }
      if exists i :: 0 <= i < |results| && results[i].Some? && e in results[i].value {
        var i :| 0 <= i < |results| && results[i].Some? && e in results[i].value;
        if i < |init| {
          assert init[i] == results[i];
        }
      }
    }
  }

  /** The window `get_events_starting_soon` asks for: from five minutes
      before to five minutes after `minutesAhead` minutes from now. */
  function StartingSoonWindow(now: int, minutesAhead: int): (w: (int, int))
    ensures w.1 - w.0 == 10 * 60
    ensures w.0 < now + minutesAhead * 60 < w.1
    ensures w.0 == now + (minutesAhead - 5) * 60
  {
    (now + (minutesAhead - 5) * 60, now + (minutesAhead + 5) * 60)
  }
}
