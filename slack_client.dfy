/** The Slack side of the bot: the block layout of a meeting summary, the
    table of scheduled messages, slash-command dispatch and channel lookup.
    Every Slack Web API call is replaced by its outcome, passed in. */
module SlackClient {
  import opened Text

  /** One layout block of a Slack message. */
  datatype Block =
    | Header(plain: string)     // "header" block with plain text
    | Context(mrkdwn: string)   // "context" block with one mrkdwn element
    | Divider
    | Section(mrkdwn: string)   // "section" block with mrkdwn text

  const SummaryHeading: string := "*\U{1F4DD} Summary from Previous Meeting*"
  const NoSummary: string := "_No summary available from previous meeting_"
  const ActionItemsHeading: string := "*✅ Action Items from Last Meeting:*\n"
  const TopicsHeading: string := "*\U{1F3F7}️ Key Topics:* "
  const ParticipantsHeading: string := "*Participants:* "
  const MaxActionItems: nat := 5
  const MaxTopics: nat := 5
  const MaxParticipants: nat := 10

  /** A Python value used as a condition: `None` and `""` are false. */
  predicate Given(url: Option<string>) {
    url.Some? && url.value != ""
  }

  /** `[f"• {item}" for item in items]`. */
  function Bullets(items: seq<string>): (lines: seq<string>)
    ensures |lines| == |items|
    ensures forall i :: 0 <= i < |items| ==> lines[i] == "• " + items[i]
  {
    if items == [] then [] else ["• " + items[0]] + Bullets(items[1..])
  }

  /** ``[f"`{topic}`" for topic in topics]``. */
  function Quoted(topics: seq<string>): (qs: seq<string>)
    ensures |qs| == |topics|
    ensures forall i :: 0 <= i < |topics| ==> qs[i] == "`" + topics[i] + "`"
  {
    if topics == [] then [] else ["`" + topics[0] + "`"] + Quoted(topics[1..])
  }

  function ActionItemsText(items: seq<string>): string {
    ActionItemsHeading + Join("\n", Bullets(Take(items, MaxActionItems)))
  }

  function TopicsText(topics: seq<string>): string {
    TopicsHeading + Join(" • ", Quoted(Take(topics, MaxTopics)))
  }

  function ParticipantsText(people: seq<string>): string {
    ParticipantsHeading + Join(", ", Take(people, MaxParticipants))
  }

  function LinkText(url: string): string {
    "<" + url + "|View Full Transcript in Fireflies>"
  }

  /** The five blocks every summary starts with; `clock` is the meeting
      time already formatted as `%I:%M %p`. */
  function Opening(title: string, clock: string, summary: string): seq<Block> {
    [ Header("\U{1F4C5} Upcoming Meeting: " + title),
      Context("*Starting in 30 minutes* • " + clock),
      Divider,
      Section(SummaryHeading),
      Section(if summary != "" then summary else NoSummary) ]
  }

  /** A block that is present only under a condition. */
  function When(c: bool, b: Block): seq<Block> {
    if c then [b] else []
  }

  /** The block list `send_meeting_summary` posts. */
  function SummaryLayout(title: string, clock: string, summary: string, items: seq<string>,
                         topics: seq<string>, people: seq<string>, url: Option<string>): seq<Block>
  {
    Opening(title, clock, summary)
    + When(items != [], Section(ActionItemsText(items)))
    + When(topics != [], Section(TopicsText(topics)))
    + When(people != [], Context(ParticipantsText(people)))
    + When(Given(url), Section(LinkText(if url.Some? then url.value else "")))
    + [Divider]
  }

  /** Assembles the summary blocks as `send_meeting_summary` does: the
      opening blocks, then one conditional append per optional part. */
  method BuildSummaryBlocks(title: string, clock: string, summary: string, items: seq<string>,
                            topics: seq<string>, people: seq<string>, url: Option<string>)
    returns (blocks: seq<Block>)
    ensures blocks == SummaryLayout(title, clock, summary, items, topics, people, url)
  {
    blocks := Opening(title, clock, summary);
    if items != [] {
      blocks := blocks + [Section(ActionItemsText(items))];
    }
    ghost var head := Opening(title, clock, summary) + When(items != [], Section(ActionItemsText(items)));
    assert blocks == head;
    if topics != [] {
      blocks := blocks + [Section(TopicsText(topics))];
    }
    head := head + When(topics != [], Section(TopicsText(topics)));
    assert blocks == head;
    if people != [] {
      blocks := blocks + [Context(ParticipantsText(people))];
    }
    head := head + When(people != [], Context(ParticipantsText(people)));
    assert blocks == head;
    if Given(url) {
      blocks := blocks + [Section(LinkText(url.value))];
    }
    head := head + When(Given(url), Section(LinkText(if url.Some? then url.value else "")));
    assert blocks == head;
    blocks := blocks + [Divider];
  }

  function Flag(c: bool): nat {
    if c then 1 else 0
  }

  /** Every summary starts with header, context, divider, heading and the
      summary (or the placeholder when there is none), ends with a divider,
      and holds one more block for each optional part that is present; the
      action items, when present, come right after the opening, and the
      transcript link, when given, right before the closing divider. */
  lemma SummaryShape(title: string, clock: string, summary: string, items: seq<string>,
                     topics: seq<string>, people: seq<string>, url: Option<string>)
    ensures var bs := SummaryLayout(title, clock, summary, items, topics, people, url);
      && |bs| == 6 + Flag(items != []) + Flag(topics != []) + Flag(people != []) + Flag(Given(url))
      && bs[0].Header? && bs[1].Context? && bs[2] == Divider && bs[3] == Section(SummaryHeading)
      && (summary != "" ==> bs[4] == Section(summary))
      && (summary == "" ==> bs[4] == Section(NoSummary))
      && bs[|bs| - 1] == Divider
      && (items != [] ==> bs[5] == Section(ActionItemsText(items)))
      && (Given(url) ==> bs[|bs| - 2] == Section(LinkText(url.value)))
  {
  }

  lemma TakeTwice<T>(s: seq<T>, n: nat)
    ensures Take(Take(s, n), n) == Take(s, n)
    ensures n > 0 ==> (Take(s, n) == [] <==> s == [])
  {
  }

  /** Only the first 5 action items, the first 5 topics and the first 10
      participants reach the message: cutting the lists there changes nothing. */
  lemma SummaryIgnoresExtras(title: string, clock: string, summary: string, items: seq<string>,
                             topics: seq<string>, people: seq<string>, url: Option<string>)
    ensures SummaryLayout(title, clock, summary, items, topics, people, url)
         == SummaryLayout(title, clock, summary, Take(items, MaxActionItems), Take(topics, MaxTopics),
                          Take(people, MaxParticipants), url)
  {
    TakeTwice(items, MaxActionItems);
    TakeTwice(topics, MaxTopics);
    TakeTwice(people, MaxParticipants);
  }

  /** The action-item section lists, one `• item` line each, exactly the
      first `min(5, n)` items. */
  lemma ActionItemLines(items: seq<string>)
    ensures var lines := Bullets(Take(items, MaxActionItems));
      && |lines| == (if |items| < MaxActionItems then |items| else MaxActionItems)
      && (forall i :: 0 <= i < |lines| ==> lines[i] == "• " + items[i])
      && ActionItemsText(items) == ActionItemsHeading + Join("\n", lines)
  {
  }

  /** A message waiting in Slack's schedule, as the bot records it. */
  datatype Scheduled = Scheduled(channel: string, time: int, text: string)

  /** The table after `schedule_message`; `response` is the id Slack
      returned, or `None` when the call raised. */
  function AfterSchedule(table: map<string, Scheduled>, channel: string, time: int, text: string,
                         response: Option<string>): map<string, Scheduled>
  {
    if response.Some? then table[response.value := Scheduled(channel, time, text)] else table
  }

  /** The table after `cancel_scheduled_message`; `deleted` says whether
      Slack's deletion call succeeded (it is made only for a recorded id). */
  function AfterCancel(table: map<string, Scheduled>, id: string, deleted: bool): map<string, Scheduled> {
    if id in table && deleted then table - {id} else table
  }

  /** Replies of the `/fireflies-summary` slash command. */
  datatype Reply =
    | Help
    | Status(scheduled: nat)
    | Subscribed(series: string)
    | Unsubscribed(series: string)
    | Unknown

  /** Dispatch on the stripped command text: the exact words "help" and
      "status" first, then the prefixes "subscribe" and "unsubscribe", whose
      series name is the text with every occurrence of the word removed. */
  function Dispatch(text: string, scheduled: nat): Reply {
    var command := Strip(text);
    if command == "help" then Help
    else if command == "status" then Status(scheduled)
    else if StartsWith(command, "subscribe") then Subscribed(Strip(ReplaceAll(command, "subscribe", "")))
    else if StartsWith(command, "unsubscribe") then Unsubscribed(Strip(ReplaceAll(command, "unsubscribe", "")))
    else Unknown
  }

  /** Removing the leading word from `word + " " + series` leaves the
      space and the series, when the series does not contain the word. */
  lemma ReplaceLeadingWord(word: string, series: string)
    requires |word| > 0 && !IsSpace(word[0]) && !Contains(series, word)
    ensures ReplaceAll(word + " " + series, word, "") == " " + series
  {
    var c := word + " " + series;
    var t := " " + series;
    assert c[..|word|] == word;
    assert c[|word|..] == t;
    if |t| >= |word| {
      assert t[..|word|] != word by { assert t[0] != word[0]; }
      assert t[1..] == series;
      ReplaceAbsent(series, word, "");
    }
  }

  lemma CommandUnstripped(word: string, series: string)
    requires |word| > 0 && !IsSpace(word[0])
    requires series != [] && NoEdgeSpace(series)
    ensures Strip(word + " " + series) == word + " " + series
    ensures StartsWith(word + " " + series, word)
  {
    var c := word + " " + series;
    assert c[0] == word[0] && c[|c| - 1] == series[|series| - 1];
    StripNoEdge(c);
    assert c[..|word|] == word;
  }

  /** `subscribe <series>` subscribes to exactly that series, for any series
      name without edge spaces that does not itself contain the word. */
  lemma SubscribeRoundTrip(series: string, scheduled: nat)
    requires series != [] && NoEdgeSpace(series) && !Contains(series, "subscribe")
    ensures Dispatch("subscribe " + series, scheduled) == Subscribed(series)
  {
    var c := "subscribe " + series;
    assert c == "subscribe" + " " + series;
    CommandUnstripped("subscribe", series);
    ReplaceLeadingWord("subscribe", series);
    StripAfterSpace(series);
    assert Strip(c) == c;
    assert Strip(ReplaceAll(c, "subscribe", "")) == series;
    assert c != "help" && c != "status" by { assert |c| > 6; }
  }

  /** `unsubscribe <series>` is not taken for a subscription, and names the
      series back. */
  lemma UnsubscribeRoundTrip(series: string, scheduled: nat)
    requires series != [] && NoEdgeSpace(series) && !Contains(series, "unsubscribe")
    ensures Dispatch("unsubscribe " + series, scheduled) == Unsubscribed(series)
  {
    var c := "unsubscribe " + series;
    assert c == "unsubscribe" + " " + series;
    CommandUnstripped("unsubscribe", series);
    ReplaceLeadingWord("unsubscribe", series);
    StripAfterSpace(series);
    assert Strip(c) == c;
    assert Strip(ReplaceAll(c, "unsubscribe", "")) == series;
    assert c != "help" && c != "status" by { assert |c| > 6; }
    assert !StartsWith(c, "subscribe") by { assert c[0] == 'u'; }
  }

  /** Text that is neither exact command nor starts with either prefix is
      answered with the "unknown command" reply, and only such text is. */
  lemma DispatchUnknown(text: string, scheduled: nat)
    ensures Dispatch(text, scheduled) == Unknown
        <==> (var c := Strip(text);
              c != "help" && c != "status" && !StartsWith(c, "subscribe") && !StartsWith(c, "unsubscribe"))
  {
  }

  /** An entry of `conversations_list`. */
  datatype Channel = Channel(id: string, name: string)

  /** `r` is the id of the first channel called `name`, or `None` when no
      channel has that name. */
  predicate IsFirstChannel(channels: seq<Channel>, name: string, r: Option<string>) {
    && (r.None? <==> forall i :: 0 <= i < |channels| ==> channels[i].name != name)
    && (r.Some? ==> exists i :: 0 <= i < |channels| && channels[i].name == name && channels[i].id == r.value
                                && forall j :: 0 <= j < i ==> channels[j].name != name)
  }

  /** `get_channel_id`: `response` is the channel list, or `None` when the
      API call raised. */
  method GetChannelId(response: Option<seq<Channel>>, name: string) returns (r: Option<string>)
    ensures response.None? ==> r.None?
    ensures response.Some? ==> IsFirstChannel(response.value, name, r)
  {
    if response.None? {
      return None;
    }
    var channels := response.value;
    for i := 0 to |channels|
      invariant forall j :: 0 <= j < i ==> channels[j].name != name
    {
      if channels[i].name == name {
        return Some(channels[i].id);
      }
    }
    return None;
  }

  /** The bot's own state: the ids of the messages it has scheduled. */
  class SlackBot {
    var scheduledMessages: map<string, Scheduled>

    constructor()
      ensures scheduledMessages == map[]
    {
      scheduledMessages := map[];
    }

    /** `schedule_message`: on success the returned id is recorded with its
        channel, time and text; on failure nothing is recorded. */
    method ScheduleMessage(channel: string, time: int, text: string, response: Option<string>)
      returns (id: Option<string>)
      modifies this
      ensures id == response
      ensures scheduledMessages == AfterSchedule(old(scheduledMessages), channel, time, text, response)
    {
      id := response;
      if response.Some? {
        scheduledMessages := scheduledMessages[response.value := Scheduled(channel, time, text)];
      }
    }

    /** `cancel_scheduled_message`: true, with the entry gone, exactly when
        the id was recorded and Slack deleted it. */
    method CancelScheduledMessage(id: string, deleted: bool) returns (ok: bool)
      modifies this
      ensures ok <==> id in old(scheduledMessages) && deleted
      ensures scheduledMessages == AfterCancel(old(scheduledMessages), id, deleted)
    {
      ok := false;
      if id in scheduledMessages {
        if deleted {
          scheduledMessages := scheduledMessages - {id};
          ok := true;
        }
      }
    }

    /** The slash-command handler; the status reply reports the number of
        scheduled messages. */
    method HandleCommand(text: string) returns (reply: Reply)
      ensures reply == Dispatch(text, |scheduledMessages|)
      ensures reply.Status? ==> reply.scheduled == |scheduledMessages|
    {
      reply := Dispatch(text, |scheduledMessages|);
    }
  }

  /** A successful schedule records exactly its own entry. */
  lemma ScheduleRecords(table: map<string, Scheduled>, channel: string, time: int, text: string, id: string)
    ensures var t := AfterSchedule(table, channel, time, text, Some(id));
      && t[id] == Scheduled(channel, time, text)
      && forall k :: k != id ==> (k in t <==> k in table) && (k in table ==> t[k] == table[k])
  {
  }

  /** Cancelling an unknown id, or a failed deletion, leaves the table as it was. */
  lemma CancelUnknown(table: map<string, Scheduled>, id: string, deleted: bool)
    requires id !in table || !deleted
    ensures AfterCancel(table, id, deleted) == table
  {
  }

  /** Scheduling a fresh id and then cancelling it restores the table. */
  lemma ScheduleThenCancel(table: map<string, Scheduled>, channel: string, time: int, text: string, id: string)
    requires id !in table
    ensures AfterCancel(AfterSchedule(table, channel, time, text, Some(id)), id, true) == table
  {
    var t := AfterSchedule(table, channel, time, text, Some(id));
    assert t - {id} == table;
  }
}
