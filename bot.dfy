/** The bot that ties the pieces together: on every check it walks the
    calendar events starting soon, skips the ones it has already handled
    (by a key made of the event id and its start time), decides for each
    new one between posting the previous meeting's summary and a
    first-meeting notice, and forgets keys older than a day. It also picks
    the Slack channel from the meeting title. The calendar answer, the
    Fireflies search result, Slack's channel lists, the clock and the ISO
    formatting and parsing of instants are parameters. */
module Bot {
  import opened Text
  import Calendar
  import Fireflies
  import SlackClient

  const DefaultChannel: string := "#general"
  const DaySeconds: int := 86400
  const MaxDescription: nat := 500
  const MaxAttendees: nat := 10
  const NoSummaryAvailable: string := "No summary available"
  const FirstMeetingNote: string := "_This appears to be the first meeting in this series. No previous summary available._"
  const DescriptionHeading: string := "*Meeting Description:*\n"
  const AttendeesHeading: string := "*Attendees:* "

  // ---------------------------------------------------------------------
  // Processed-event keys

  /** `f"{event.id}_{event.start_time.isoformat()}"`. */
  function EventKey(id: string, stamp: string): string {
    id + "_" + stamp
  }

  /** The position of the last `c` in `s`. */
  function LastIndexOf(s: string, c: char): (r: Option<nat>)
    ensures r.Some? ==> r.value < |s| && s[r.value] == c && forall j :: r.value < j < |s| ==> s[j] != c
    ensures r.None? ==> forall j :: 0 <= j < |s| ==> s[j] != c
    decreases |s|
  {
    if s == [] then None
    else if s[|s| - 1] == c then Some(|s| - 1)
    else LastIndexOf(s[..|s| - 1], c)
  }

  /** `key.rsplit("_", 1)` unpacked into two parts: `None` when the key has
      no `_` (the unpacking raises). */
  function SplitKey(key: string): (r: Option<(string, string)>)
    ensures r.None? <==> '_' !in key
    ensures r.Some? ==> key == r.value.0 + "_" + r.value.1 && '_' !in r.value.1
  {
    var i := LastIndexOf(key, '_');
    if i.None? then None
    else
      assert key == key[..i.value] + "_" + key[i.value + 1..];
      Some((key[..i.value], key[i.value + 1..]))
  }

  /** A key splits back into the id and the timestamp it was made of when
      the timestamp holds no `_` (an ISO timestamp never does); the id may
      hold any number of them. */
  lemma SplitEventKey(id: string, stamp: string)
    requires '_' !in stamp
    ensures SplitKey(EventKey(id, stamp)) == Some((id, stamp))
  {
    var key := EventKey(id, stamp);
    assert key[|id|] == '_';
    forall j | |id| < j < |key| ensures key[j] != '_' {
      assert key[j] == stamp[j - |id| - 1];
    }
    assert LastIndexOf(key, '_') == Some(|id|);
    assert key[..|id|] == id && key[|id| + 1..] == stamp;
  }

  /** `_parse_event_key_time`: the timestamp of the key, or `now` when the
      key has no `_` or its timestamp does not parse. */
  function KeyTime(key: string, now: int, parseIso: string -> Option<int>): int {
    var parts := SplitKey(key);
    if parts.None? then now
    else
      var t := parseIso(parts.value.1);
      if t.None? then now else t.value
  }

  /** The key of an event whose timestamp renders and parses back reads
      as the event's start. */
  lemma KeyTimeOfEvent(id: string, start: int, now: int, formatIso: int -> string, parseIso: string -> Option<int>)
    requires '_' !in formatIso(start) && parseIso(formatIso(start)) == Some(start)
    ensures KeyTime(EventKey(id, formatIso(start)), now, parseIso) == start
  {
    SplitEventKey(id, formatIso(start));
  }

  /** The keys `_cleanup_processed_events` keeps: those whose time is after
      one day before `now`. */
  function Kept(keys: set<string>, now: int, parseIso: string -> Option<int>): set<string> {
    set k | k in keys && KeyTime(k, now, parseIso) > now - DaySeconds
  }

  /** A key whose timestamp is missing or unreadable reads as `now` and is
      therefore never dropped. */
  lemma UnreadableKeyKept(keys: set<string>, key: string, now: int, parseIso: string -> Option<int>)
    requires key in keys
    requires SplitKey(key).None? || parseIso(SplitKey(key).value.1).None?
    ensures key in Kept(keys, now, parseIso)
  {
    assert KeyTime(key, now, parseIso) == now;
  }

  /** An event key is kept while its start is less than a day old and
      dropped afterwards. */
  lemma EventKeyKept(keys: set<string>, id: string, start: int, now: int,
                     formatIso: int -> string, parseIso: string -> Option<int>)
    requires EventKey(id, formatIso(start)) in keys
    requires '_' !in formatIso(start) && parseIso(formatIso(start)) == Some(start)
    ensures EventKey(id, formatIso(start)) in Kept(keys, now, parseIso) <==> start > now - DaySeconds
  {
    KeyTimeOfEvent(id, start, now, formatIso, parseIso);
  }

  // ---------------------------------------------------------------------
  // What a new event leads to

  datatype Action =
    | SendSummary(transcript: Fireflies.Transcript)
    | SendFirstMeetingNotice
    | NoMessage

  /** `process_event`, given the result of the Fireflies search for the
      previous meeting of the series. */
  function ProcessAction(previous: Option<Fireflies.Transcript>, isRecurring: bool): (a: Action)
    ensures a.SendSummary? <==> previous.Some?
    ensures a.SendSummary? ==> a.transcript == previous.value
    ensures a.SendFirstMeetingNotice? <==> previous.None? && isRecurring
  {
    if previous.Some? then SendSummary(previous.value)
    else if isRecurring then SendFirstMeetingNotice
    else NoMessage
  }

  function KeyOf(e: Calendar.CalendarEvent, formatIso: int -> string): string {
    EventKey(e.id, formatIso(e.start))
  }

  /** What `check_upcoming_meetings` has done after the events so far: the
      events it processed, in order, and the key set. A new key is added,
      then the key set is cleaned. */
  function Checked(events: seq<Calendar.CalendarEvent>, seen: set<string>, now: int,
                   formatIso: int -> string, parseIso: string -> Option<int>)
    : (seq<Calendar.CalendarEvent>, set<string>)
    decreases |events|
  {
    if events == [] then ([], seen)
    else
      var prev := Checked(events[..|events| - 1], seen, now, formatIso, parseIso);
      var e := events[|events| - 1];
      var key := KeyOf(e, formatIso);
      if key in prev.1 then prev
      else (prev.0 + [e], Kept(prev.1 + {key}, now, parseIso))
  }

  /** When every event's timestamp reads back as its start and that start
      is less than a day old: every event's key ends up recorded, no two
      processed events share a key, no processed event was recorded
      before, and every processed event is one of the input events. */
  lemma {:induction false} CheckedFacts(events: seq<Calendar.CalendarEvent>, seen: set<string>, now: int,
                                        formatIso: int -> string, parseIso: string -> Option<int>)
    requires forall e <- events :: '_' !in formatIso(e.start) && parseIso(formatIso(e.start)) == Some(e.start)
                                   && e.start > now - DaySeconds
    ensures var r := Checked(events, seen, now, formatIso, parseIso);
      && (forall e <- events :: KeyOf(e, formatIso) in r.1)
      && (forall i, j :: 0 <= i < j < |r.0| ==> KeyOf(r.0[i], formatIso) != KeyOf(r.0[j], formatIso))
      && (forall e <- r.0 :: KeyOf(e, formatIso) !in seen)
      && (forall e <- r.0 :: e in events)
      && (forall k :: k in seen && KeyTime(k, now, parseIso) > now - DaySeconds ==> k in r.1)
    decreases |events|
  {
    if events != [] {
      var init, e := events[..|events| - 1], events[|events| - 1];
      assert events == init + [e];
      CheckedFacts(init, seen, now, formatIso, parseIso);
      var prev := Checked(init, seen, now, formatIso, parseIso);
      var key := KeyOf(e, formatIso);
      KeyTimeOfEvent(e.id, e.start, now, formatIso, parseIso);
      if key !in prev.1 {
        var s := Kept(prev.1 + {key}, now, parseIso);
        forall x <- events ensures KeyOf(x, formatIso) in s {
          if x != e {
            assert x in init;
            KeyTimeOfEvent(x.id, x.start, now, formatIso, parseIso);
          }
        }
        var done := prev.0 + [e];
        forall i, j | 0 <= i < j < |done| ensures KeyOf(done[i], formatIso) != KeyOf(done[j], formatIso) {
          if j == |prev.0| {
            assert done[i] in prev.0;
            assert done[i] in init;
          } else {
            assert done[i] == prev.0[i] && done[j] == prev.0[j];
          }
        }
        assert key !in seen;
      }
    }
  }

  /** A check in which every event was already recorded processes nothing
      and purges nothing: the cleanup runs only after a new event. */
  lemma {:induction false} NothingNewNoPurge(events: seq<Calendar.CalendarEvent>, seen: set<string>, now: int,
                                             formatIso: int -> string, parseIso: string -> Option<int>)
    requires forall e <- events :: KeyOf(e, formatIso) in seen
    ensures Checked(events, seen, now, formatIso, parseIso) == ([], seen)
    decreases |events|
  {
    if events != [] {
      var init := events[..|events| - 1];
      assert forall e <- init :: e in events;
      NothingNewNoPurge(init, seen, now, formatIso, parseIso);
    }
  }

  /** Offering the same recent events to a second check processes none of
      them again. */
  lemma ReofferedNotReprocessed(events: seq<Calendar.CalendarEvent>, seen: set<string>, now: int,
                                formatIso: int -> string, parseIso: string -> Option<int>)
    requires forall e <- events :: '_' !in formatIso(e.start) && parseIso(formatIso(e.start)) == Some(e.start)
                                   && e.start > now - DaySeconds
    ensures var after := Checked(events, seen, now, formatIso, parseIso).1;
      Checked(events, after, now, formatIso, parseIso) == ([], after)
  {
    CheckedFacts(events, seen, now, formatIso, parseIso);
    NothingNewNoPurge(events, Checked(events, seen, now, formatIso, parseIso).1, now, formatIso, parseIso);
  }

  // ---------------------------------------------------------------------
  // Channel choice and messages

  /** The channel the title points at, by the first keyword of the
      lower-cased title that matches; `default` otherwise. */
  function ChannelFor(title: string, default: string): (c: string)
    ensures var t := Lower(title);
      var eng := Contains(t, "engineering") || Contains(t, "dev");
      var product := Contains(t, "product");
      var design := Contains(t, "design");
      var daily := Contains(t, "standup") || Contains(t, "daily");
      && (c == "#engineering" || c == "#product" || c == "#design" || c == "#standups" || c == default)
      && (eng ==> c == "#engineering")
      && (!eng && product ==> c == "#product")
      && (!eng && !product && design ==> c == "#design")
      && (!eng && !product && !design ==> c == (if daily then "#standups" else default))
  {
    var t := Lower(title);
    if Contains(t, "engineering") || Contains(t, "dev") then "#engineering"
    else if Contains(t, "product") then "#product"
    else if Contains(t, "design") then "#design"
    else if Contains(t, "standup") || Contains(t, "daily") then "#standups"
    else default
  }

  /** `s.lstrip("#")`. */
  function LStripHash(s: string): (r: string)
    ensures r == [] || r[0] != '#'
    ensures exists n :: 0 <= n <= |s| && r == s[n..] && forall j :: 0 <= j < n ==> s[j] == '#'
    decreases |s|
  {
    if s != [] && s[0] == '#' then
      var r := LStripHash(s[1..]);
      var n :| 0 <= n <= |s[1..]| && r == s[1..][n..] && forall j :: 0 <= j < n ==> s[1..][j] == '#';
      assert r == s[n + 1..];
      r
    else
      assert s == s[0..];
      s
  }

  /** A channel name written with its `#` loses exactly that `#`. */
  lemma {:induction false} LStripHashName(name: string)
    requires name == [] || name[0] != '#'
    ensures LStripHash("#" + name) == name
  {
    assert ("#" + name)[1..] == name;
  }

  /** The name looked up is the chosen channel without its `#`. */
  lemma ChannelLookupName(title: string)
    ensures var c := ChannelFor(title, DefaultChannel);
      && c[0] == '#'
      && LStripHash(c) == c[1..]
      && LStripHash(c) in ["engineering", "product", "design", "standups", "general"]
  {
    var c := ChannelFor(title, DefaultChannel);
    assert c == "#" + c[1..];
    LStripHashName(c[1..]);
  }

  /** `determine_slack_channel`: looks up the channel the title points at
      (in `listing`) and, when that gives no id, the default channel (in
      `fallbackListing`). `primary` is the first lookup's answer. */
  method DetermineSlackChannel(title: string, default: string, listing: Option<seq<SlackClient.Channel>>,
                               fallbackListing: Option<seq<SlackClient.Channel>>)
    returns (primary: Option<string>, r: Option<string>)
    ensures Lookup(listing, LStripHash(ChannelFor(title, default)), primary)
    ensures primary.Some? && primary.value != "" ==> r == primary
    ensures !(primary.Some? && primary.value != "") ==> Lookup(fallbackListing, LStripHash(default), r)
  {
    var channel := ChannelFor(title, default);
    primary := SlackClient.GetChannelId(listing, LStripHash(channel));
    if primary.Some? && primary.value != "" {
      return primary, primary;
    }
    r := SlackClient.GetChannelId(fallbackListing, LStripHash(default));
  }

  /** The outcome of `get_channel_id` on a listing (`None`: the call raised). */
  predicate Lookup(listing: Option<seq<SlackClient.Channel>>, name: string, r: Option<string>) {
    if listing.None? then r.None? else SlackClient.IsFirstChannel(listing.value, name, r)
  }

  /** `transcript.summary or "No summary available"`. */
  function SummaryOrDefault(summary: string): (s: string)
    ensures s != ""
    ensures summary != "" ==> s == summary
  {
    if summary != "" then summary else NoSummaryAvailable
  }

  /** The blocks `send_summary_to_slack` has posted for an event and the
      previous meeting's transcript; `clock` is the start formatted as
      `%I:%M %p`. */
  function SummaryBlocks(event: Calendar.CalendarEvent, t: Fireflies.Transcript, clock: string)
    : seq<SlackClient.Block>
  {
    SlackClient.SummaryLayout(event.title, clock, SummaryOrDefault(t.summary), t.actionItems,
                              t.keyTopics, t.participants, t.meetingUrl)
  }

  /** Since the bot always passes a non-empty summary, the summary block
      holds the transcript's summary or, for an empty one, the bot's own
      placeholder instead of the Slack client's. */
  lemma SummaryBlockText(event: Calendar.CalendarEvent, t: Fireflies.Transcript, clock: string)
    ensures var bs := SummaryBlocks(event, t, clock);
      && |bs| >= 6
      && bs[0] == SlackClient.Header("\U{1F4C5} Upcoming Meeting: " + event.title)
      && bs[4] == SlackClient.Section(if t.summary != "" then t.summary else NoSummaryAvailable)
      && (t.summary == "" ==> bs[4] != SlackClient.Section(SlackClient.NoSummary))
  {
    SlackClient.SummaryShape(event.title, clock, SummaryOrDefault(t.summary), t.actionItems,
                             t.keyTopics, t.participants, t.meetingUrl);
    assert NoSummaryAvailable != SlackClient.NoSummary by {
      assert |NoSummaryAvailable| != |SlackClient.NoSummary|;
    }
  }

  /** The decimal text of an integer. */
  function IntToString(i: int): string {
    if i < 0 then "-" + NatToString(-i) else NatToString(i)
  }

  function OrEmpty(s: Option<string>): string {
    if s.Some? then s.value else ""
  }

  predicate HasDescription(description: Option<string>) {
    description.Some? && description.value != ""
  }

  /** The blocks of `send_first_meeting_notification`: heading, timing and
      notice; then the description cut to 500 characters when there is
      one; then up to ten attendees when there are any. */
  function FirstMeetingBlocks(event: Calendar.CalendarEvent, clock: string, minutesBefore: int)
    : (bs: seq<SlackClient.Block>)
    ensures |bs| == 3 + SlackClient.Flag(HasDescription(event.description)) + SlackClient.Flag(event.attendees != [])
  {
    [ SlackClient.Header("\U{1F4C5} Upcoming Meeting: " + event.title),
      SlackClient.Context("*Starting in " + IntToString(minutesBefore) + " minutes* • " + clock),
      SlackClient.Section(FirstMeetingNote) ]
    + SlackClient.When(HasDescription(event.description),
                       SlackClient.Section(DescriptionHeading + Take(OrEmpty(event.description), MaxDescription)))
    + SlackClient.When(event.attendees != [],
                       SlackClient.Context(AttendeesHeading + Join(", ", Take(event.attendees, MaxAttendees))))
  }

  /** The notice always opens with the heading and the first-meeting note;
      the description block shows a prefix of at most 500 characters of
      the description, and the last block names the first attendees, at
      most ten of them. */
  lemma FirstMeetingShape(event: Calendar.CalendarEvent, clock: string, minutesBefore: int)
    ensures var bs := FirstMeetingBlocks(event, clock, minutesBefore);
      && bs[0] == SlackClient.Header("\U{1F4C5} Upcoming Meeting: " + event.title)
      && bs[2] == SlackClient.Section(FirstMeetingNote)
      && (HasDescription(event.description) ==>
            exists d :: bs[3] == SlackClient.Section(DescriptionHeading + d)
                        && |d| <= MaxDescription && |d| <= |event.description.value|
                        && event.description.value == d + event.description.value[|d|..])
      && (event.attendees != [] ==>
            exists names :: bs[|bs| - 1] == SlackClient.Context(AttendeesHeading + Join(", ", names))
                            && |names| <= MaxAttendees && |names| <= |event.attendees|
                            && names == event.attendees[..|names|])
  {
    var bs := FirstMeetingBlocks(event, clock, minutesBefore);
    if HasDescription(event.description) {
      var d := Take(event.description.value, MaxDescription);
      assert event.description.value == d + event.description.value[|d|..];
      assert bs[3] == SlackClient.Section(DescriptionHeading + d);
    }
    if event.attendees != [] {
      var names := Take(event.attendees, MaxAttendees);
      assert bs[|bs| - 1] == SlackClient.Context(AttendeesHeading + Join(", ", names));
    }
  }

  // ---------------------------------------------------------------------
  // The bot

  class FirefliesSummaryBot {
    /** Keys of the events already handled. */
    var processedEvents: set<string>
    const defaultChannel: string

    constructor()
      ensures processedEvents == {} && defaultChannel == DefaultChannel
    {
      processedEvents := {};
      defaultChannel := DefaultChannel;
    }

    /** `_cleanup_processed_events`. */
    method CleanupProcessedEvents(now: int, parseIso: string -> Option<int>)
      modifies this
      ensures processedEvents == Kept(old(processedEvents), now, parseIso)
    {
      processedEvents := set k | k in processedEvents && KeyTime(k, now, parseIso) > now - DaySeconds;
    }

    /** `check_upcoming_meetings` over the events starting soon:
        `previousOf` is the Fireflies search for an event's previous
        meeting. Returns the events it processed and what each led to. */
    method CheckUpcomingMeetings(upcoming: seq<Calendar.CalendarEvent>, now: int,
                                 formatIso: int -> string, parseIso: string -> Option<int>,
                                 previousOf: Calendar.CalendarEvent -> Option<Fireflies.Transcript>)
      returns (processed: seq<Calendar.CalendarEvent>, actions: seq<Action>)
      modifies this
      ensures (processed, processedEvents) == Checked(upcoming, old(processedEvents), now, formatIso, parseIso)
      ensures |actions| == |processed|
      ensures forall i :: 0 <= i < |processed| ==>
                actions[i] == ProcessAction(previousOf(processed[i]), processed[i].isRecurring)
    {
      processed, actions := [], [];
      for i := 0 to |upcoming|
        invariant (processed, processedEvents) == Checked(upcoming[..i], old(processedEvents), now, formatIso, parseIso)
        invariant |actions| == |processed|
        invariant forall j :: 0 <= j < |processed| ==>
                    actions[j] == ProcessAction(previousOf(processed[j]), processed[j].isRecurring)
      {
        assert upcoming[..i + 1][..i] == upcoming[..i] && upcoming[..i + 1][i] == upcoming[i];
        var event := upcoming[i];
        var key := EventKey(event.id, formatIso(event.start));
        if key in processedEvents {
          continue;
        }
        actions := actions + [ProcessAction(previousOf(event), event.isRecurring)];
        processed := processed + [event];
        processedEvents := processedEvents + {key};
        CleanupProcessedEvents(now, parseIso);
      }
      assert upcoming[..|upcoming|] == upcoming;
    }
  }
}
