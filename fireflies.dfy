/** The Fireflies GraphQL client: the bounded retry loop around each
    request, the search filters, the coercions that turn a raw transcript
    record into a `Transcript`, and the choice of the previous meeting.
    Each HTTP attempt is replaced by its outcome, passed in as a function
    of the attempt number; ISO timestamp text is read and written by
    functions passed in. */
module Fireflies {
  import opened Text

  /** A meeting transcript as the rest of the bot uses it. */
  datatype Transcript = Transcript(
    id: string,
    title: string,
    date: int,
    durationMinutes: int,
    summary: string,
    actionItems: seq<string>,
    participants: seq<string>,
    meetingUrl: Option<string>,
    transcriptText: string,
    keyTopics: seq<string>)

  /** A summary field the API sends either as a list or as one string. */
  datatype ListOrString = Items(items: seq<string>) | Single(text: string)

  /** Raw records as they come out of the JSON response; `None` is an
      absent key. */
  datatype Attendee = Attendee(displayName: Option<string>, email: Option<string>)
  datatype Sentence = Sentence(speakerName: Option<string>, text: Option<string>)
  datatype SummaryData = SummaryData(overview: Option<string>, actionItems: Option<ListOrString>,
                                     keywords: Option<ListOrString>)
  datatype TranscriptData = TranscriptData(
    id: Option<string>,
    title: Option<string>,
    date: Option<string>,
    duration: Option<int>,
    summary: Option<SummaryData>,
    attendees: Option<seq<Attendee>>,
    sentences: Option<seq<Sentence>>,
    meetingUrl: Option<string>)

  const MaxSentences: nat := 100
  const SecondsPerDay: int := 86400
  const LookBackDays: int := 30
  const PreviousSearchLimit: int := 5

  /** `action_items`/`keywords`: a list passes through, a string becomes a
      one-element list when non-empty and the empty list otherwise. */
  function AsList(v: Option<ListOrString>): (l: seq<string>)
    ensures v.None? ==> l == []
    ensures v.Some? && v.value.Items? ==> l == v.value.items
    ensures v.Some? && v.value.Single? ==> (l == [] <==> v.value.text == "")
    ensures v.Some? && v.value.Single? && v.value.text != "" ==> l == [v.value.text]
  {
    match v
    case None => []
    case Some(Items(xs)) => xs
    case Some(Single(s)) => if s != "" then [s] else []
  }

  /** `duration // 60`, with a missing duration counting as 0: the whole
      minutes in the duration, rounded down. */
  function DurationMinutes(duration: Option<int>): (m: int)
    ensures duration.None? ==> m == 0
    ensures duration.Some? ==> 60 * m <= duration.value < 60 * m + 60
  {
    if duration.Some? then duration.value / 60 else 0
  }

  /** `a.get("displayName", a.get("email", "Unknown"))`. */
  function ParticipantName(a: Attendee): (name: string)
    ensures a.displayName.Some? ==> name == a.displayName.value
    ensures a.displayName.None? && a.email.Some? ==> name == a.email.value
    ensures a.displayName.None? && a.email.None? ==> name == "Unknown"
  {
    if a.displayName.Some? then a.displayName.value
    else if a.email.Some? then a.email.value
    else "Unknown"
  }

  function Participants(attendees: seq<Attendee>): (names: seq<string>)
    ensures |names| == |attendees|
    ensures forall i :: 0 <= i < |attendees| ==> names[i] == ParticipantName(attendees[i])
  {
    if attendees == [] then [] else [ParticipantName(attendees[0])] + Participants(attendees[1..])
  }

  /** One `speaker: text` line; a missing speaker is "Unknown" and a
      missing text is empty. */
  function SentenceLine(s: Sentence): string {
    (if s.speakerName.Some? then s.speakerName.value else "Unknown") + ": "
    + (if s.text.Some? then s.text.value else "")
  }

  function SentenceLines(ss: seq<Sentence>): (lines: seq<string>)
    ensures |lines| == |ss|
    ensures forall i :: 0 <= i < |ss| ==> lines[i] == SentenceLine(ss[i])
  {
    if ss == [] then [] else [SentenceLine(ss[0])] + SentenceLines(ss[1..])
  }

  /** The transcript text: the first 100 sentences, one line each. */
  function TranscriptText(ss: seq<Sentence>): string {
    Join("\n", SentenceLines(Take(ss, MaxSentences)))
  }

  /** The transcript text has one line for each of the first
      `min(100, n)` sentences and nothing from any later sentence. */
  lemma TranscriptTextLines(ss: seq<Sentence>)
    ensures var lines := SentenceLines(Take(ss, MaxSentences));
      && |lines| == (if |ss| < MaxSentences then |ss| else MaxSentences)
      && (forall i :: 0 <= i < |lines| ==> lines[i] == SentenceLine(ss[i]))
    ensures |ss| > MaxSentences ==> TranscriptText(ss) == TranscriptText(ss[..MaxSentences])
  {
    if |ss| > MaxSentences {
      assert Take(ss[..MaxSentences], MaxSentences) == Take(ss, MaxSentences);
    }
  }

  /** The date text, or `""` when the key is absent. */
  function DateText(data: TranscriptData): string {
    if data.date.Some? then data.date.value else ""
  }

  /** The instant of the record: "now" when the date text is empty, the
      parse of the text with a trailing `Z` written as `+00:00` otherwise,
      `None` when that text does not parse. */
  function RecordDate(data: TranscriptData, now: int, parseIso: string -> Option<int>): Option<int> {
    var text := DateText(data);
    if text != "" then parseIso(ReplaceAll(text, "Z", "+00:00")) else Some(now)
  }

  /** `_parse_transcript`: `None` exactly when the date text does not parse
      (the failure the source catches); otherwise every field is filled in
      with its default where the record lacks it. */
  function ParseTranscript(data: TranscriptData, now: int, parseIso: string -> Option<int>): (r: Option<Transcript>)
    ensures r.None? <==> RecordDate(data, now, parseIso).None?
    ensures r.Some? ==> var t := r.value;
      && t.date == RecordDate(data, now, parseIso).value
      && (DateText(data) == "" ==> t.date == now)
      && t.id == (if data.id.Some? then data.id.value else "")
      && t.title == (if data.title.Some? then data.title.value else "Untitled Meeting")
      && t.durationMinutes == DurationMinutes(data.duration)
      && t.participants == Participants(if data.attendees.Some? then data.attendees.value else [])
      && |t.participants| == (if data.attendees.Some? then |data.attendees.value| else 0)
      && t.meetingUrl == data.meetingUrl
    ensures r.Some? ==> var t := r.value;
      && (data.summary.None? ==> t.summary == "" && t.actionItems == [] && t.keyTopics == [])
      && (data.summary.Some? ==>
            && t.summary == (if data.summary.value.overview.Some? then data.summary.value.overview.value else "")
            && t.actionItems == AsList(data.summary.value.actionItems)
            && t.keyTopics == AsList(data.summary.value.keywords))
      && t.transcriptText == TranscriptText(if data.sentences.Some? then data.sentences.value else [])
  {
    var date := RecordDate(data, now, parseIso);
    if date.None? then None
    else
      var summary := if data.summary.Some? then data.summary.value else SummaryData(None, None, None);
      Some(Transcript(
        id := if data.id.Some? then data.id.value else "",
        title := if data.title.Some? then data.title.value else "Untitled Meeting",
        date := date.value,
        durationMinutes := DurationMinutes(data.duration),
        summary := if summary.overview.Some? then summary.overview.value else "",
        actionItems := AsList(summary.actionItems),
        participants := Participants(if data.attendees.Some? then data.attendees.value else []),
        meetingUrl := data.meetingUrl,
        transcriptText := TranscriptText(if data.sentences.Some? then data.sentences.value else []),
        keyTopics := AsList(summary.keywords)))
  }

  /** `_parse_transcript` as a function value, for the collecting loop. */
  function Parser(now: int, parseIso: string -> Option<int>): TranscriptData -> Option<Transcript> {
    d => ParseTranscript(d, now, parseIso)
  }

  /** The `filters` argument of `search_transcripts`: a title only when the
      pattern is non-empty, and each bound only when given. */
  function SearchFilters(titlePattern: Option<string>, start: Option<int>, end: Option<int>,
                         isoText: int -> string): (f: map<string, string>)
    ensures "title" in f <==> titlePattern.Some? && titlePattern.value != ""
    ensures "start_date" in f <==> start.Some?
    ensures "end_date" in f <==> end.Some?
    ensures f.Keys <= {"title", "start_date", "end_date"}
    ensures "title" in f ==> f["title"] == titlePattern.value
    ensures "start_date" in f ==> f["start_date"] == isoText(start.value)
    ensures "end_date" in f ==> f["end_date"] == isoText(end.value)
  {
    var f0: map<string, string> := map[];
    var f1 := if titlePattern.Some? && titlePattern.value != "" then f0["title" := titlePattern.value] else f0;
    var f2 := if start.Some? then f1["start_date" := isoText(start.value)] else f1;
    if end.Some? then f2["end_date" := isoText(end.value)] else f2
  }

  /** The variables of a `search_transcripts` request. */
  datatype SearchRequest = SearchRequest(limit: int, filters: map<string, string>)

  /** The search `find_previous_meeting_in_series` issues: the meeting
      title, from 30 days before the meeting up to it, at most 5 results. */
  function PreviousSearch(title: string, date: int, isoText: int -> string): (q: SearchRequest)
    ensures q.limit == 5
    ensures "start_date" in q.filters && q.filters["start_date"] == isoText(date - 30 * 86400)
    ensures "end_date" in q.filters && q.filters["end_date"] == isoText(date)
    ensures title != "" ==> "title" in q.filters && q.filters["title"] == title
    ensures title == "" ==> "title" !in q.filters
  {
    SearchRequest(PreviousSearchLimit,
                  SearchFilters(Some(title), Some(date - LookBackDays * SecondsPerDay), Some(date), isoText))
  }

  function TranscriptDate(t: Transcript): Option<int> {
    Some(t.date)
  }

  predicate AnyTranscript(t: Transcript) {
    true
  }

  /** One HTTP attempt: an answer with its status, whether the GraphQL body
      carried `errors`, and its `data`; a timeout; or any other exception. */
  datatype Attempt<D> = Answered(status: int, errors: bool, data: D) | TimedOut | Broken

  /** What `_make_request` ends with: the data, or the last failure re-raised. */
  datatype Outcome<D> = Data(data: D) | Raised(last: Attempt<D>)

  const MaxRetries: nat := 3

  predicate Succeeds<D>(a: Attempt<D>) {
    a.Answered? && a.status == 200 && !a.errors
  }

  function Pow2(n: nat): (p: nat)
    ensures p >= 1
  {
    if n == 0 then 1 else 2 * Pow2(n - 1)
  }

  /** The outcome of the attempts from number `i` on. */
  function Retried<D>(attempt: nat -> Attempt<D>, i: nat): Outcome<D>
    requires i < MaxRetries
    decreases MaxRetries - i
  {
    if Succeeds(attempt(i)) then Data(attempt(i).data)
    else if i == MaxRetries - 1 then Raised(attempt(i))
    else Retried(attempt, i + 1)
  }

  /** The request succeeds exactly when one of the three attempts does, and
      then returns the data of the first one that did; otherwise it raises
      the third attempt's failure. */
  lemma {:induction false} RetriedFacts<D>(attempt: nat -> Attempt<D>, i: nat)
    requires i < MaxRetries
    ensures Retried(attempt, i).Data? <==> exists k :: i <= k < MaxRetries && Succeeds(attempt(k))
    ensures Retried(attempt, i).Data? ==>
              (exists k :: i <= k < MaxRetries && Succeeds(attempt(k))
                 && (forall j :: i <= j < k ==> !Succeeds(attempt(j))) && Retried(attempt, i).data == attempt(k).data)
    ensures Retried(attempt, i).Raised? ==> Retried(attempt, i).last == attempt(MaxRetries - 1)
    decreases MaxRetries - i
  {
    if !Succeeds(attempt(i)) && i < MaxRetries - 1 {
      RetriedFacts(attempt, i + 1);
    }
  }

  /** The client; `session` says whether its HTTP session is open. */
  class FirefliesClient {
    var session: bool

    constructor()
      ensures !session
    {
      session := false;
    }

    /** `_make_request`: opens the session if needed, then makes up to three
        attempts, sleeping `2^k` seconds after failed attempt `k` when
        another attempt follows. `tries` is the number of attempts made and
        `slept` the sleeps in order. */
    method MakeRequest<D>(attempt: nat -> Attempt<D>) returns (r: Outcome<D>, tries: nat, slept: seq<nat>)
      modifies this
      ensures session
      ensures r == Retried(attempt, 0)
      ensures 1 <= tries <= MaxRetries
      ensures forall k :: 0 <= k < tries - 1 ==> !Succeeds(attempt(k))
      ensures r.Data? ==> Succeeds(attempt(tries - 1)) && r.data == attempt(tries - 1).data
      ensures r.Raised? ==> tries == MaxRetries && !Succeeds(attempt(tries - 1))
      ensures |slept| == tries - 1 && forall k :: 0 <= k < |slept| ==> slept[k] == Pow2(k)
    {
      if !session {
        session := true;
      }
      slept := [];
      tries := 0;
      while true
        invariant 0 <= tries < MaxRetries
        invariant forall k :: 0 <= k < tries ==> !Succeeds(attempt(k))
        invariant Retried(attempt, 0) == Retried(attempt, tries)
        invariant |slept| == tries && forall k :: 0 <= k < |slept| ==> slept[k] == Pow2(k)
        decreases MaxRetries - tries
      {
        var a := attempt(tries);
        if Succeeds(a) {
          r := Data(a.data);
          tries := tries + 1;
          return;
        }
        if tries < MaxRetries - 1 {
          slept := slept + [Pow2(tries)];
          tries := tries + 1;
        } else {
          r := Raised(a);
          tries := tries + 1;
          return;
        }
      }
    }

    /** `search_transcripts`: a failed request yields no transcripts. */
    method SearchTranscripts(attempt: nat -> Attempt<seq<TranscriptData>>, now: int,
                             parseIso: string -> Option<int>) returns (ts: seq<Transcript>)
      modifies this
      ensures ts == Found(Retried(attempt, 0), now, parseIso)
    {
      var r, _, _ := MakeRequest(attempt);
      if r.Raised? {
        return [];
      }
      ts := CollectSome(r.data, Parser(now, parseIso));
    }

    /** `find_previous_meeting_in_series`: issues `PreviousSearch` and, of the
        transcripts found, returns the latest one dated strictly before the
        meeting (the first in result order among equal dates), or `None`. */
    method FindPreviousMeetingInSeries(title: string, date: int, now: int, isoText: int -> string,
                                       parseIso: string -> Option<int>,
                                       attempt: nat -> Attempt<seq<TranscriptData>>)
      returns (request: SearchRequest, r: Option<Transcript>)
      modifies this
      ensures request == PreviousSearch(title, date, isoText)
      ensures IsLatestEarlier(Found(Retried(attempt, 0), now, parseIso), AnyTranscript, TranscriptDate, date, r)
      ensures r.Some? ==> r.value.date < date
    {
      request := PreviousSearch(title, date, isoText);
      var ts := SearchTranscripts(attempt, now, parseIso);
      r := LatestEarlier(ts, AnyTranscript, TranscriptDate, date);
      if r.Some? {
        ghost var i :| 0 <= i < |ts| && ts[i] == r.value && EarlierMatch(ts[i], AnyTranscript, TranscriptDate, date);
      }
    }
  }

  /** The transcripts a search yields for a request outcome. */
  function Found(r: Outcome<seq<TranscriptData>>, now: int, parseIso: string -> Option<int>): seq<Transcript> {
    if r.Raised? then [] else Somes(r.data, Parser(now, parseIso))
  }

  /** The previous meeting is never dated on or after the meeting, and no
      transcript found before the meeting is later than it. */
  lemma PreviousIsLatest(ts: seq<Transcript>, date: int, r: Option<Transcript>)
    requires IsLatestEarlier(ts, AnyTranscript, TranscriptDate, date, r)
    ensures r.Some? ==> r.value in ts && r.value.date < date
                        && forall t <- ts :: t.date < date ==> t.date <= r.value.date
    ensures r.None? <==> forall t <- ts :: t.date >= date
  {
    if r.Some? {
      var i :| 0 <= i < |ts| && ts[i] == r.value && EarlierMatch(ts[i], AnyTranscript, TranscriptDate, date)
               && (forall j :: 0 <= j < |ts| && EarlierMatch(ts[j], AnyTranscript, TranscriptDate, date)
                               ==> TranscriptDate(ts[j]).value <= TranscriptDate(ts[i]).value);
      forall t <- ts | t.date < date ensures t.date <= r.value.date {
        var j :| 0 <= j < |ts| && ts[j] == t;
        assert EarlierMatch(ts[j], AnyTranscript, TranscriptDate, date);
      }
    }
    if r.None? {
      forall t <- ts ensures t.date >= date {
        var j :| 0 <= j < |ts| && ts[j] == t;
        assert !EarlierMatch(ts[j], AnyTranscript, TranscriptDate, date);
      }
    } else {
      var i :| 0 <= i < |ts| && ts[i] == r.value && EarlierMatch(ts[i], AnyTranscript, TranscriptDate, date);
      assert ts[i] in ts;
    }
  }
}
