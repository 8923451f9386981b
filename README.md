# fireflies_summary — a verified model of the meeting-series core

fireflies_summary is a bot that watches one or more calendars for meetings that
are about to start. For each such meeting it looks up the previous occurrence
of the same meeting series in Fireflies.ai and posts that meeting's summary to
a Slack channel. A recurring meeting with no earlier transcript gets a
"first meeting" notice instead. This project models the logic at the centre of
that flow and proves what it promises:

- **meeting_analyzer.dfy** (`MeetingAnalyzer`) covers the series analyzer.
  - It extracts a series name from a title: bracketed, parenthesised or
    leading identifiers, then the known phrase patterns, then the title
    without dates.
  - It normalises titles into series keys and groups records into series.
  - It finds the latest earlier record of a series and classifies the cadence
    from the mean day gap.
  - It counts common participants and keywords.
- **patterns.dfy** (`Patterns`) is a scanner for the analyzer's fixed regular
  expressions: leftmost search, and deletion of every match.
  **text.dfy** (`Text`) holds the string and list helpers that Python's
  built-ins provide: strip, split, join, lower-casing, a stable sort by key,
  and filter-map.
  **analyzer_examples.dfy** works series names and series keys of titles
  from the analyzer's own test suite out on the model.
- **bot.dfy** (`Bot`) covers the bot itself:
  - the ledger of processed `<id>_<start>` keys and its 24-hour purge;
  - the three-way decision in `process_event`;
  - the title-to-channel classifier and its fallback lookup;
  - the summary and first-meeting message blocks.
- **slack_client.dfy** (`SlackClient`) covers the Slack side:
  - the summary block layout and its truncation rules;
  - the table of scheduled messages;
  - slash-command dispatch;
  - channel-id lookup.
- **fireflies.dfy** (`Fireflies`) covers the Fireflies client:
  - the bounded retry loop of `_make_request`;
  - search filters;
  - transcript record coercions;
  - the choice of the previous transcript.
- **calendar_integration.dfy** (`Calendar`) covers the calendar integration:
  - the id-keyed event cache with its 5-minute expiry;
  - Google and Outlook event parsing;
  - the manager's merge-and-sort;
  - the starting-soon window.
- **google_calendar.dfy** (`GoogleCalendar`) covers the Apps Script calendar
  client:
  - the "starts within N minutes" filter;
  - the requested hour span;
  - the secondary series-name extraction;
  - the word-overlap fallback search.
- **enhanced_calendar.dfy** (`EnhancedCalendar`) covers the multi-source
  calendar:
  - source precedence (Apps Script, then the Google API, then mock events);
  - event conversion;
  - deduplication by (title, start);
  - the final sort.

**How the model represents the source:**
- Instants are integer seconds.
- "Now" is a parameter.
- ISO-8601 formatting and parsing are passed in as functions (`formatIso`,
  `parseIso`, `isoText`).
- Every network answer is an input value: an `Option` of the decoded response,
  or a sequence of attempt outcomes.
- Objects whose fields the source updates are classes:
  `FirefliesSummaryBot.processedEvents`, `SlackBot.scheduledMessages`,
  `CalendarIntegration`'s cache and `Analyzer.seriesCache`.
- Loops are methods proved against specification functions, and the lemmas
  beside those functions state the promised properties.

## Model

| member | source | states |
|---|---|---|
| MeetingAnalyzer.LazyGroupEnd | src/meeting_analyzer.py:41-47 | the end of a lazy `(.+?)` group is the first position where the delimiter follows; no earlier position closes the group |
| MeetingAnalyzer.Lead | src/meeting_analyzer.py:44-46 | a leading `X:` / `X -` / `X \|` identifier is the shortest non-empty prefix that the delimiter closes; None when no prefix is closed |
| AnalyzerExamples.BracketExample | src/meeting_analyzer.py:88-92 | "[Project Alpha] Status Update" is in the series "Project Alpha" |
| AnalyzerExamples.ColonExample | src/meeting_analyzer.py:88-92 | "Engineering Sync: Sprint 23" is in the series "Engineering Sync" (the bracket and parenthesis identifiers do not match first) |
| AnalyzerExamples.ExplicitName | src/meeting_analyzer.py:88-92 | when an explicit identifier matches, the series name is its capture, trimmed and with its case kept |
| AnalyzerExamples.EnclosedAbsent | src/meeting_analyzer.py:42-43 | a title without the opening bracket has no bracketed identifier |
| MeetingAnalyzer.PhraseFrom | src/meeting_analyzer.py:95-98 | a phrase is found exactly when some known phrase pattern matches the lower-cased title; the span found is the leftmost match of the first pattern in table order that matches, and no earlier pattern matches |
| MeetingAnalyzer.PhraseName | src/meeting_analyzer.py:84-99 | a title with no explicit identifier is named after the first phrase match, taken from the lower-cased, stripped title and trimmed |
| AnalyzerExamples.DailyStandupExample | tests/test_bot.py:217 | "Daily Standup" is in the series "daily standup" |
| AnalyzerExamples.WeeklyTeamExample | tests/test_bot.py:218 | "Weekly Team Meeting" is in the series "weekly team meeting" (the weekly pattern matches the whole lower-cased title) |
| MeetingAnalyzer.NameTrimmed | src/meeting_analyzer.py:84-110 | every extracted series name has no leading or trailing whitespace; a name from the date-stripped fallback is longer than 5 characters |
| MeetingAnalyzer.KeepKeyChars | src/meeting_analyzer.py:254 | the filtered key keeps only word characters, spaces and `-`, all taken from the input |
| MeetingAnalyzer.RemoveDateTimePatterns | src/meeting_analyzer.py:258-275 | the loop that deletes each date/time pattern in turn computes the specified stripped text |
| MeetingAnalyzer.NormalizeShape | src/meeting_analyzer.py:251-256 | a normalised key is lower-case and contains only word characters, spaces and `-`, with no edge spaces and no double spaces |
| MeetingAnalyzer.NormalizeIdempotent | src/meeting_analyzer.py:251-256 | normalising a normalised key changes nothing |
| MeetingAnalyzer.NormalKeyFixed | src/meeting_analyzer.py:251-256 | every key of normal shape is a fixed point of the normalisation |
| MeetingAnalyzer.KeyShape | src/meeting_analyzer.py:71-82 | every series key (the normalised extracted name, or else the normalised date-stripped title) is of normal shape |
| AnalyzerExamples.SeriesKeyExample | tests/test_bot.py:252-263 | "Daily Standup 10/15/2023" and "Daily Standup 10/16/2023" both key to "daily standup"; "Weekly Planning" keys to "weekly planning", a different key |
| MeetingAnalyzer.FindPreviousInSeries | src/meeting_analyzer.py:112-141 | the result is None exactly when no dated same-key record is strictly earlier than the date; otherwise it is such a record with the latest date, the first in list order among ties |
| Text.LatestEarlier | src/meeting_analyzer.py:121-141 | the one-pass scan returns the head of a stable newest-first sort of the earlier matches |
| Text.LatestEarlierUnique | src/fireflies_client.py:250-261 | the latest earlier match is uniquely determined, so every implementation of the choice agrees |
| MeetingAnalyzer.Dates | src/meeting_analyzer.py:149-153 | the date list has one entry per record, in record order |
| MeetingAnalyzer.DetectMeetingPattern | src/meeting_analyzer.py:143-184 | the gap loop computes the specified cadence: adhoc below two records; otherwise the class of the mean whole-day gap of the date-sorted records |
| MeetingAnalyzer.PatternIgnoresOrder | src/meeting_analyzer.py:148-173 | the cadence depends only on the multiset of dates, not on record order |
| MeetingAnalyzer.AscendingUnique | src/meeting_analyzer.py:148-153 | two ascending orderings of the same dates are equal, so the sort is determined |
| MeetingAnalyzer.SortedIdIsAscending | src/meeting_analyzer.py:148-153 | sorting the dates yields them ascending and permuted |
| MeetingAnalyzer.EvenlyGaps | src/meeting_analyzer.py:155-167 | n records a fixed number of days apart have a gap sum of (n−1) times that step |
| MeetingAnalyzer.EvenlyAscending | src/meeting_analyzer.py:148-153 | evenly spaced dates are ascending |
| MeetingAnalyzer.ClassifyConstantGap | src/meeting_analyzer.py:172-184 | with a constant gap, the mean-gap thresholds (≤1.5 daily, 5–9 weekly, 12–16 biweekly, 25–35 monthly) classify the step itself |
| MeetingAnalyzer.EvenlySpacedCadence | src/meeting_analyzer.py:143-184 | any ordering of evenly spaced dated records has the cadence of their step |
| MeetingAnalyzer.EvenlyDownSameDates | src/meeting_analyzer.py:148-153 | newest-first evenly spaced dates are the same multiset as oldest-first ones |
| MeetingAnalyzer.NewestFirstCadence | src/meeting_analyzer.py:143-184 | newest-first evenly spaced records have the cadence of their step |
| MeetingAnalyzer.MulBounds | src/meeting_analyzer.py:172-184 | bounds on the step carry over to n times the step, as the mean thresholds need |
| MeetingAnalyzer.DailyExample | src/meeting_analyzer.py:143-184 | five records one day apart, newest first, are daily |
| MeetingAnalyzer.WeeklyExample | src/meeting_analyzer.py:143-184 | four records one week apart, newest first, are weekly |
| MeetingAnalyzer.CountPositive | src/meeting_analyzer.py:190-193 | a name is counted at least once exactly when it occurs |
| MeetingAnalyzer.CommonParticipants | src/meeting_analyzer.py:186-202 | a name is common exactly when it occurs and its count is at least half the number of meetings |
| MeetingAnalyzer.ListedParticipants | src/meeting_analyzer.py:190-193 | a participant count is positive exactly when some meeting lists that name |
| MeetingAnalyzer.CommonKeywords | src/meeting_analyzer.py:204-220 | a keyword is common exactly when its lower-cased form occurs, its count is at least 0.3 times the number of meetings, and it is longer than 3 characters |
| MeetingAnalyzer.ListedKeywords | src/meeting_analyzer.py:208-211 | a keyword count is positive exactly when some meeting lists that keyword, lower-cased |
| MeetingAnalyzer.GetCommonParticipants | src/meeting_analyzer.py:186-202 | the counting loops compute exactly the common-participant set |
| MeetingAnalyzer.GetCommonKeywords | src/meeting_analyzer.py:204-220 | the counting loops compute exactly the common-keyword set |
| MeetingAnalyzer.Members | src/meeting_analyzer.py:54-58 | a group holds only input records with that key |
| MeetingAnalyzer.GroupByKey | src/meeting_analyzer.py:54-58 | the grouping loop yields the keys in first-seen order, with each group holding exactly the records of that key, in input order |
| MeetingAnalyzer.MembersOfAbsentKey | src/meeting_analyzer.py:54-58 | a key that never occurs has an empty group |
| MeetingAnalyzer.GroupingPartitions | src/meeting_analyzer.py:54-58 | every record lies in the group of its own key; every listed key has a non-empty group; the keys are distinct |
| MeetingAnalyzer.GroupSizesSnoc | src/meeting_analyzer.py:54-58 | appending a record adds one to the group sizes exactly when its key is already listed |
| MeetingAnalyzer.GroupSizesNew | src/meeting_analyzer.py:54-58 | a key that does not occur adds nothing to the group sizes |
| MeetingAnalyzer.KeyOrderDistinct | src/meeting_analyzer.py:54-58 | no key is listed twice |
| MeetingAnalyzer.GroupSizesTotal | src/meeting_analyzer.py:54-58 | the group sizes sum to the number of records, so each record lands in exactly one group |
| MeetingAnalyzer.MembersDated | src/meeting_analyzer.py:62-64 | every group of two or more records is fully dated when the input guarantees it, so its cadence is defined |
| MeetingAnalyzer.FirstNameIsFirst | src/meeting_analyzer.py:227-233 | the series name is the first non-empty extracted name in record order, or the key when there is none |
| MeetingAnalyzer.PickName | src/meeting_analyzer.py:227-233 | the naming loop returns that first name |
| MeetingAnalyzer.CreateSeriesM | src/meeting_analyzer.py:222-249 | building a series computes the specified name, records, participants, keywords and cadence |
| MeetingAnalyzer.SeriesEntriesKeys | src/meeting_analyzer.py:62-67 | the cache gains an entry exactly for each key with at least two records, holding that group's series |
| MeetingAnalyzer.GroupSeriesM | src/meeting_analyzer.py:222-249 | building the series of one group of two or more records gives that group's specified series |
| MeetingAnalyzer.SeriesSnoc | src/meeting_analyzer.py:62-67 | one more key adds its series to the list and its entry to the cache exactly when its group has two or more records |
| MeetingAnalyzer.SeriesBy | src/meeting_analyzer.py:52-69 | the loop over groups computes the specified series list and cache entries |
| MeetingAnalyzer.SeriesOverFacts | src/meeting_analyzer.py:62-67 | every emitted series has at least two records, all with its key, and those are exactly the records of its group |
| MeetingAnalyzer.Analyzer.constructor | src/meeting_analyzer.py:49-50 | a new analyzer has an empty series cache |
| MeetingAnalyzer.Analyzer.IdentifySeries | src/meeting_analyzer.py:52-69 | returns the series of the records and adds each series to the cache under its key, keeping the older entries |
| Patterns.Span | src/meeting_analyzer.py:28-38 | a greedy character-class run stops at the first character outside the class |
| Patterns.FirstWordIsFirst | src/meeting_analyzer.py:28-38 | the first alternative of an alternation that matches is the one taken |
| Patterns.LastWordPos | src/meeting_analyzer.py:30-32 | `(\w+\s*)*` followed by an alternation ends at the last position where the alternation can match |
| Patterns.SearchFrom | src/meeting_analyzer.py:95-99 | the search returns the leftmost position from which the pattern matches, with its match end |
| Patterns.Search | src/meeting_analyzer.py:95-99 | `re.search` finds the leftmost match; no earlier position matches |
| Patterns.DeleteAll | src/meeting_analyzer.py:101-105 | deleting every match never lengthens the text, and text without a match is unchanged |
| Patterns.DeleteEach | src/meeting_analyzer.py:262-275 | applying each deletion in turn never lengthens the text |
| Text.SplitWs | src/google_calendar_integration.py:236 | `str.split()` yields non-empty words with no whitespace |
| Text.SplitJoin | src/google_calendar_integration.py:236 | joining words with single spaces and splitting again gives back the words |
| Text.StripNoEdge | src/meeting_analyzer.py:92 | stripping text that has no edge whitespace changes nothing |
| Text.SortByFacts | src/calendar_integration.py:428 | the stable sort by start yields a sorted permutation of its input |
| Bot.LastIndexOf | src/bot.py:322-323 | the position found holds the separator and no later position does; None when the separator is absent |
| Bot.SplitKey | src/bot.py:320-327 | splitting on the last `_` fails exactly when there is none; otherwise the parts rejoin to the key and the tail has no `_` |
| Bot.SplitEventKey | src/bot.py:320-327 | a key built as id + "_" + start splits back to that id and start, even when the id contains `_` |
| Bot.KeyTimeOfEvent | src/bot.py:320-327 | the time read from an event key is the event's start |
| Bot.UnreadableKeyKept | src/bot.py:310-327 | a key whose time cannot be read counts as "now" and is never purged |
| Bot.EventKeyKept | src/bot.py:310-318 | an event key survives the purge exactly when its start is later than now minus one day |
| Bot.ProcessAction | src/bot.py:153-178 | a summary is sent exactly when a previous transcript exists; a first-meeting notice exactly when none exists and the event is recurring; otherwise nothing |
| Bot.CheckedFacts | src/bot.py:135-148 | after a check every offered key is recorded; processed events have distinct keys, none already seen, all from the input; recent keys survive |
| Bot.NothingNewNoPurge | src/bot.py:135-148 | a check in which every key is already recorded processes nothing and leaves the key set unchanged, since the purge runs only after a new event |
| Bot.ReofferedNotReprocessed | src/bot.py:135-148 | offering the same recent events to a second check processes none of them again |
| Bot.FirefliesSummaryBot.constructor | src/bot.py:37-38 | a new bot has an empty set of processed keys |
| Bot.FirefliesSummaryBot.CleanupProcessedEvents | src/bot.py:310-318 | the set is replaced by the keys whose time is later than now minus one day |
| Bot.FirefliesSummaryBot.CheckUpcomingMeetings | src/bot.py:123-178 | processes exactly the events whose key is new, adding each key and purging after each, and takes the process-event decision for each processed event |
| Bot.ChannelFor | src/bot.py:289-300 | the first matching rule on the lower-cased title picks engineering, product, design or standups, else the default channel |
| Bot.LStripHash | src/bot.py:303 | the leading `#` characters are removed and nothing else |
| Bot.LStripHashName | src/bot.py:303 | a channel name loses exactly its one leading `#` |
| Bot.ChannelLookupName | src/bot.py:289-303 | the looked-up name is one of engineering, product, design, standups, general |
| Bot.DetermineSlackChannel | src/bot.py:280-308 | looks up the classified channel; when that yields no id, makes exactly one more lookup, for the default channel, and returns its result |
| Bot.SummaryOrDefault | src/bot.py:199 | the summary passed to Slack is never empty and is the transcript's own summary when that is non-empty |
| Bot.SummaryBlockText | src/bot.py:195-204 | the posted summary starts with the meeting header and its summary section shows the bot's placeholder for an empty summary, never Slack's |
| Bot.FirstMeetingBlocks | src/bot.py:222-267 | the notice has three fixed blocks, plus a description block only for a non-empty description and an attendee block only for a non-empty attendee list |
| Bot.FirstMeetingShape | src/bot.py:222-267 | header first, the first-meeting notice third; the description is a prefix of at most 500 characters; the attendees are the first at most 10 |
| SlackClient.Bullets | src/slack_client.py:151-153 | each action item becomes one `• item` line |
| SlackClient.Quoted | src/slack_client.py:163 | each topic is back-quoted |
| SlackClient.BuildSummaryBlocks | src/slack_client.py:111-192 | the conditional appends build the specified block layout |
| SlackClient.SummaryShape | src/slack_client.py:111-192 | header, context, divider and summary heading come first; then the summary or its placeholder; a divider is last; action items and the link appear only when given |
| SlackClient.TakeTwice | src/slack_client.py:149-180 | truncating twice is truncating once, and a truncation is empty only for an empty list |
| SlackClient.SummaryIgnoresExtras | src/slack_client.py:149-180 | only the first 5 action items, the first 5 topics and the first 10 participants affect the message |
| SlackClient.ActionItemLines | src/slack_client.py:148-156 | the action-item section lists the first at most 5 items as bullet lines under its heading |
| SlackClient.ReplaceLeadingWord | src/slack_client.py:52-56 | removing the command word from "word series" leaves " series" when the series does not contain the word |
| SlackClient.CommandUnstripped | src/slack_client.py:45-55 | a well-formed command is unchanged by stripping and starts with its word |
| SlackClient.SubscribeRoundTrip | src/slack_client.py:45-59 | "subscribe X" is answered as a subscription to X |
| SlackClient.UnsubscribeRoundTrip | src/slack_client.py:45-59 | "unsubscribe X" is answered as an unsubscription from X |
| SlackClient.DispatchUnknown | src/slack_client.py:45-59 | the unknown-command reply is given exactly when the stripped text is not help or status and starts with neither subscribe nor unsubscribe |
| SlackClient.GetChannelId | src/slack_client.py:247-260 | returns the id of the first channel with that name; None when none matches or the listing failed |
| SlackClient.SlackBot.constructor | src/slack_client.py:30 | a new client has no scheduled messages |
| SlackClient.SlackBot.ScheduleMessage | src/slack_client.py:200-226 | a successful schedule records its id with channel, time and text; a failed one changes nothing |
| SlackClient.SlackBot.CancelScheduledMessage | src/slack_client.py:228-245 | succeeds and removes the entry exactly when the id is recorded and the deletion succeeded |
| SlackClient.SlackBot.HandleCommand | src/slack_client.py:45-59 | replies as dispatch specifies, the status reply counting the scheduled messages |
| SlackClient.ScheduleRecords | src/slack_client.py:215-222 | scheduling sets exactly the new id's entry and leaves every other entry as it was |
| SlackClient.CancelUnknown | src/slack_client.py:231-245 | cancelling an unknown id, or a failed deletion, leaves the table unchanged |
| SlackClient.ScheduleThenCancel | src/slack_client.py:200-245 | scheduling and then cancelling a fresh id restores the table |
| Fireflies.AsList | src/fireflies_client.py:276-282 | a string field becomes a one-element list when non-empty and an empty list otherwise; a list passes through |
| Fireflies.DurationMinutes | src/fireflies_client.py:302 | the duration in minutes is the seconds divided by 60 rounded down, and 0 when missing |
| Fireflies.ParticipantName | src/fireflies_client.py:285-289 | a participant is the display name, else the email, else "Unknown" |
| Fireflies.Participants | src/fireflies_client.py:285-289 | one participant name per attendee, in order |
| Fireflies.SentenceLines | src/fireflies_client.py:292-296 | one `speaker: text` line per sentence, in order |
| Fireflies.TranscriptTextLines | src/fireflies_client.py:292-296 | the transcript text covers at most the first 100 sentences; later sentences do not affect it |
| Fireflies.ParseTranscript | src/fireflies_client.py:263-312 | parsing fails exactly when the date is unreadable; otherwise id, title (default "Untitled Meeting"), duration, url, the participant names of the attendees and the transcript text of the sentences follow the record; without a summary the summary is empty and so are the action items and topics, with one they are its overview, its action items and its keywords as lists; a missing date is "now" |
| Fireflies.SearchFilters | src/fireflies_client.py:209-215 | the filter map has a title, start or end key exactly for each argument given, holding that argument |
| Fireflies.PreviousSearch | src/fireflies_client.py:241-248 | the previous-meeting search asks for 5 results in the 30 days before the meeting, filtered by title |
| Fireflies.Pow2 | src/fireflies_client.py:87-94 | the back-off delay is positive |
| Fireflies.RetriedFacts | src/fireflies_client.py:63-97 | the request yields data exactly when some attempt of the three succeeds, the data of the first that does; otherwise the last failure is raised |
| Fireflies.FirefliesClient.constructor | src/fireflies_client.py:34-41 | a new client has no session |
| Fireflies.FirefliesClient.MakeRequest | src/fireflies_client.py:53-97 | the retry loop makes at most 3 attempts, stops at the first success, sleeps 2^k seconds only between attempts, and re-raises the last failure |
| Fireflies.FirefliesClient.SearchTranscripts | src/fireflies_client.py:179-232 | the result is the parsed transcripts of the response, skipping unparsable ones, or empty when the request failed |
| Fireflies.FirefliesClient.FindPreviousMeetingInSeries | src/fireflies_client.py:234-261 | issues the previous-meeting search and returns the latest transcript strictly before the meeting date, or None |
| Fireflies.PreviousIsLatest | src/fireflies_client.py:250-261 | the transcript chosen is dated before the meeting and no earlier-dated result is later; None exactly when every result is on or after the date |
| Calendar.GoogleAttendees | src/calendar_integration.py:226-230 | one attendee name per Google attendee, display name else email |
| Calendar.FirstVideoUri | src/calendar_integration.py:233-239 | the meeting url is the uri of the first video entry point; None when there is none |
| Calendar.GoogleStart | src/calendar_integration.py:212-218 | a start without `dateTime` or `date` is now; an empty text never parses; any other text is parsed after `Z` becomes `+00:00` |
| Calendar.GoogleEnd | src/calendar_integration.py:213-223 | an end without `dateTime` or `date` is start plus one hour; an empty text never parses; any other text is parsed after `Z` becomes `+00:00` |
| Calendar.ParseGoogleEvent | src/calendar_integration.py:208-260 | parsing succeeds exactly when id, start and end exist and their times read, so an empty time text fails; start and end are the parses of their texts, a start without text is now and an end without text is start plus one hour; the attendees are the attendee names, description and location are copied, the url is the first video uri; the event is recurring exactly when a recurring id exists; the title defaults to "Untitled Event" |
| Calendar.OutlookAttendeeName | src/calendar_integration.py:357-361 | an Outlook attendee is its name when present and non-empty, else its address, else the empty text |
| Calendar.OutlookAttendees | src/calendar_integration.py:357-361 | one attendee name per Outlook attendee |
| Calendar.OutlookInstant | src/calendar_integration.py:350-354 | a missing or empty `dateTime` does not parse; any other is parsed after `Z` becomes `+00:00` |
| Calendar.ParseOutlookEvent | src/calendar_integration.py:346-388 | parsing succeeds exactly when id, start and end exist and read; start and end are those parses; attendees are the attendee names, the description is the body preview, the location its display name; an event is recurring exactly for type "occurrence"; the url is the join url of an online meeting and absent otherwise |
| Calendar.ByIdFacts | src/calendar_integration.py:81-86 | the cache holds exactly the ids of the events, each mapped to its last event with that id; the order list holds each cached id once |
| Calendar.IdOrderFacts | src/calendar_integration.py:81-86 | the order list holds exactly the cached ids, each once |
| Calendar.ByIdEntries | src/calendar_integration.py:81-86 | each cached id maps to the last event carrying it |
| Calendar.LaterDuplicateWins | src/calendar_integration.py:84-85 | an event with no later duplicate id is the one cached under its id |
| Calendar.ValuesInOrder | src/calendar_integration.py:154 | the cached events are listed in cache order |
| Calendar.Window | src/calendar_integration.py:149-157 | the request window defaults to now and one week after its start |
| Calendar.CalendarIntegration.constructor | src/calendar_integration.py:58-60 | a new integration has an empty cache and no expiry |
| Calendar.CalendarIntegration.UpdateCache | src/calendar_integration.py:75-86 | the cache is replaced by the events keyed by id, and it stays valid exactly until now plus 5 minutes |
| Calendar.CalendarIntegration.GetUpcomingEvents | src/calendar_integration.py:137-185 | with no service: empty; a valid cache with no bounds is served unchanged; otherwise the window is requested and the parsed events refill the cache, its id order and its expiry; a failed request returns empty |
| Calendar.CalendarIntegration.GetEventById | src/calendar_integration.py:187-206 | a cached id is served from the cache; otherwise the fetched event is parsed |
| Calendar.GetAllUpcomingEvents | src/calendar_integration.py:412-430 | the manager returns the events of every integration that answered, sorted by start, and a permutation of them |
| Calendar.GatheredMembers | src/calendar_integration.py:418-426 | an event is gathered exactly when some integration answered with it |
| Calendar.StartingSoonWindow | src/calendar_integration.py:432-441 | the starting-soon window spans ten minutes centred on now plus the lead time |
| GoogleCalendar.Annotated | src/google_calendar_integration.py:82-103 | an event is kept exactly when its start reads and lies after now and at most N minutes ahead; only the minutes and seconds fields are added, with whole minutes rounded down |
| GoogleCalendar.WindowMembers | src/google_calendar_integration.py:82-108 | every kept event comes from the input, and every event in the window is kept |
| GoogleCalendar.MalformedSkipped | src/google_calendar_integration.py:106-108 | an event whose start cannot be read is skipped without affecting the others |
| GoogleCalendar.GetMeetingsStartingSoon | src/google_calendar_integration.py:50-114 | asks for 2 hours and returns the window-filtered events, or none on a failed response |
| GoogleCalendar.RequestHours | src/google_calendar_integration.py:255 | the hours requested are the whole hours in the lead time, but at least 2 |
| GoogleCalendar.GetUpcomingEvents | src/google_calendar_integration.py:244-306 | asks for that many hours and returns the window-filtered events |
| GoogleCalendar.TakeWords | src/google_calendar_integration.py:236 | the kept words are still words |
| GoogleCalendar.SeriesNameWords | src/google_calendar_integration.py:219-242 | the name is the first at most 4 words of the cleaned title; when that is shorter than 3 characters, the first 3 words of the title instead; no edge spaces |
| GoogleCalendar.SetOfMembers | src/google_calendar_integration.py:174-175 | the word set holds exactly the words |
| GoogleCalendar.FallbackSearch | src/google_calendar_integration.py:159-187 | a failed fallback request finds nothing; otherwise the result is as the fallback specifies |
| GoogleCalendar.FirstCandidate | src/google_calendar_integration.py:173-183 | returns the last meeting of the first series sharing a lower-cased word with the title and having meetings; None when there is none |
| GoogleCalendar.FallbackUnique | src/google_calendar_integration.py:177-183 | the fallback's choice is determined by the series entries |
| GoogleCalendar.EmptyMeetingPicked | src/google_calendar_integration.py:177-181 | a series named like the title whose only meeting is `{}` makes the fallback return that empty record, which is false |
| GoogleCalendar.GetPreviousMeetingInSeries | src/google_calendar_integration.py:116-157 | returns the reported last meeting when the answer succeeded and that meeting is neither absent nor `{}`; otherwise falls back to the word-overlap search |
| EnhancedCalendar.AppsRecord | src/enhanced_calendar_integration.py:144-158 | the converted event copies the Apps Script fields: url falls back meetingUrl, hangoutLink, ""; the title defaults; the id falls back to a hash |
| EnhancedCalendar.ConvertAppsEvent | src/enhanced_calendar_integration.py:127-167 | conversion fails exactly when the start or end is unreadable; the end defaults to start plus one hour; minutes are carried over |
| EnhancedCalendar.ConvertFiltered | src/enhanced_calendar_integration.py:59-71 | a window-filtered Apps Script event converts unless its end is unreadable, and lies in the window with its whole minutes |
| EnhancedCalendar.ConvertGoogleEvent | src/enhanced_calendar_integration.py:169-200 | a Google API event converts exactly when its start lies after now and at most N minutes ahead, copying every field |
| EnhancedCalendar.MockEvents | src/enhanced_calendar_integration.py:202-242 | the mock standup is present exactly when N ≥ 25 and the review exactly when N ≥ 20, both recurring and inside the window |
| EnhancedCalendar.FirstByKeyFacts | src/enhanced_calendar_integration.py:244-259 | deduplication keeps elements of the input with pairwise distinct keys, and every input key is represented |
| EnhancedCalendar.FirstOccurrenceKept | src/enhanced_calendar_integration.py:244-259 | the first event with each key is the one kept |
| EnhancedCalendar.HasKeySnoc | src/enhanced_calendar_integration.py:250-257 | a key is seen after an append exactly when it was seen before or is the new key |
| EnhancedCalendar.RemoveDuplicatesBy | src/enhanced_calendar_integration.py:244-259 | the loop with a seen set computes the first-occurrence deduplication |
| EnhancedCalendar.GetUpcomingEventsMultipleSources | src/enhanced_calendar_integration.py:49-102 | Apps Script first, the Google API only when Apps Script gave nothing, mock events only when both gave nothing; the result is deduplicated by (lower-cased stripped title, ISO start text) and then sorted by start |
| EnhancedCalendar.MergedFacts | src/enhanced_calendar_integration.py:96-98 | the merged list is sorted by start, has distinct (lower-cased stripped title, ISO start text) keys, draws only from the sources, and represents every source key |
| EnhancedCalendar.MultisetTwoApart | src/enhanced_calendar_integration.py:98 | two positions of a list are two distinct positions of any permutation of it |
| EnhancedCalendar.ChosenSource | src/enhanced_calendar_integration.py:59-94 | the events come from exactly one source, by precedence, and there is at least one when N ≥ 20 |
| EnhancedCalendar.MergedNonEmpty | src/enhanced_calendar_integration.py:96-98 | merging a non-empty list gives a non-empty list |
| EnhancedCalendar.FromAppsSource | src/enhanced_calendar_integration.py:59-71 | every converted Apps Script event is tagged with that source |
| EnhancedCalendar.FindPreviousMeetingInSeries | src/enhanced_calendar_integration.py:104-125 | only the Apps Script client is consulted; None when it is unavailable; the client's answer is returned only when it is true, so an empty record `{}` from the fallback gives None |

## Left out

- Network and SDK calls are not modelled. This covers the Google and Microsoft calendar SDKs, the Fireflies GraphQL POSTs, the Slack Web API, OAuth and token files. Each answer is a parameter of the operation that would receive it.
- Async plumbing, the check loop, its sleeps, the health-check web server, start-up, shutdown and signal handling are not modelled. They are timing and process control, not logic.
- Actually posting the messages is not modelled, and neither is the early return when no channel resolves. The model computes the blocks and the channel. Sending is I/O.
- `datetime` handling is abstract.
  - ISO formatting and parsing are function parameters. Key text is assumed never to contain `_`, as ISO timestamps do not.
  - The model does not distinguish naive from aware datetimes. Comparing a naive parsed key with the aware cutoff raises in Python. The model treats every instant as comparable.
  - Sub-second precision is not modelled.
- `Bot.FirefliesSummaryBot.CheckUpcomingMeetings`: each purge after a processed event uses the same "now". The source reads the clock afresh each time.
- Floating point is not modelled. The 0.5 and 0.3 thresholds and the mean-gap bounds are integer cross-multiplications. `seconds / 60` truncation is integer division. These agree for every realistic input size.
- Python's Unicode `\w`, `\s` and `lower()` are approximated. They cover ASCII, Latin-1, Latin Extended, Greek and Cyrillic letters, not every Unicode category.
- `hash()`-based default ids depend on the process, so they are a function parameter.
- JSON values of unexpected types are not modelled. Fields are typed, and a missing key is `None`.
- `GoogleCalendar.Truthy`: a record is false when it has none of the modelled keys. A record holding only keys the model does not read is true in the source. A `null` entry in a series' meeting list is not representable.
- A JSON `null` and an absent key are the same `None`. The source tells them apart in places: `"location": null` in an Outlook record makes `.get('displayName')` raise, so the source drops the event (src/calendar_integration.py:380), while the model parses it with no location.
- `Text.IsDigit`: `\d` is ASCII `0`–`9` only. Python's `\d` on `str` also matches every other Unicode decimal digit, so a title with such digits can have different date suffixes removed.
- `EnhancedCalendar.DedupKey`: the start text is `formatIso` applied to the instant. `isoformat()` also writes the event's UTC offset, so two events at the same instant with different offsets have different keys in the source and the same key in the model.
- The configuration is read as parameters: the default channel, the notification lead time and the Fireflies limits.
- Not modelled because they are not part of the core:
  - `get_transcripts`, `get_transcript_by_id`, `send_message`, `send_blocks`, `get_user_id`, `get_recurring_patterns`, `test_api`;
  - the help text;
  - the manual test and debug scripts.
- Log text is not modelled. The message texts keep the source's emoji.
- `MeetingAnalyzer.RemoveDateTimePatterns`: models the source as written. The month/day pattern runs first, so "2023-10-15" becomes "20" because it matches inside the year.
- `MeetingAnalyzer.DetectMeetingPattern`: requires every record to be dated when there are at least two. Python raises on an undated record there.
- `MeetingAnalyzer.NormalizeIdempotent`: holds for the normalisation only. The full `extract_series_key` is not idempotent, because "[a-b] x" keys to "a-b" and that re-keys to "a".
