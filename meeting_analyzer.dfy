/** Series identification over meeting records: the series key of a title,
    the previous meeting of a series, the recurrence cadence of a series, the
    participants and keywords a series has in common, and the grouping of
    records into series. */
module MeetingAnalyzer {
  import opened Text
  import opened Patterns

  /** A meeting record. A missing title is the empty text and a missing date
      is `None`; dates are instants in seconds. */
  datatype Meeting = Meeting(title: string, date: Option<int>, participants: seq<string>, keywords: seq<string>)

  datatype MeetingSeries = MeetingSeries(
    seriesId: string,
    seriesName: string,
    pattern: Cadence,
    meetings: seq<Meeting>,
    commonParticipants: set<string>,
    commonKeywords: set<string>)

  // ---- Explicit series identifiers: [X], (X), X:, X -, X | ----

  /** The delimiter occurs at `q`, after a whitespace run when `spaced`. */
  predicate DelimAt(s: string, q: nat, delim: char, spaced: bool)
    requires q <= |s|
  {
    var j := q + (if spaced then SpaceRun(s, q) else 0);
    j < |s| && s[j] == delim
  }

  /** `s[g..q]` is a non-empty group of characters other than a line break
      (the `.+` of the pattern) and the delimiter follows it. */
  predicate EndsGroup(s: string, g: nat, q: nat, delim: char, spaced: bool)
    requires q <= |s|
  {
    g < q && (forall k :: g <= k < q ==> s[k] != '\n') && DelimAt(s, q, delim, spaced)
  }

  /** The lazy group `(.+?)`: the first end `q` from the candidate `q0` on at
      which the delimiter follows. */
  function LazyGroupEnd(s: string, g: nat, q0: nat, delim: char, spaced: bool): (r: Option<nat>)
    requires g < q0 <= |s|
    requires forall k :: g <= k < q0 - 1 ==> s[k] != '\n'
    ensures r.Some? ==> q0 <= r.value <= |s| && EndsGroup(s, g, r.value, delim, spaced)
    ensures forall q :: q0 <= q <= |s| && (r.None? || q < r.value) ==> !EndsGroup(s, g, q, delim, spaced)
    decreases |s| - q0
  {
    if s[q0 - 1] == '\n' then None
    else if DelimAt(s, q0, delim, spaced) then Some(q0)
    else if q0 == |s| then None
    else LazyGroupEnd(s, g, q0 + 1, delim, spaced)
  }

  /** `re.search(r"\[(.+?)\]", s)` (with the given brackets) from position
      `p`: the group of the leftmost opening bracket that is closed on its
      line. */
  function EnclosedFrom(s: string, p: nat, open: char, close: char): (r: Option<string>)
    requires p <= |s|
    decreases |s| - p
  {
    if p == |s| then None
    else if s[p] == open && p + 2 <= |s| && LazyGroupEnd(s, p + 1, p + 2, close, false).Some? then
      Some(s[p + 1..LazyGroupEnd(s, p + 1, p + 2, close, false).value])
    else EnclosedFrom(s, p + 1, open, close)
  }

  function Enclosed(s: string, open: char, close: char): Option<string> {
    EnclosedFrom(s, 0, open, close)
  }

  /** `re.search(r"^(.+?)\s*-", s)` and its siblings: the shortest non-empty
      head of the first line that the delimiter follows. */
  function Lead(s: string, delim: char, spaced: bool): (r: Option<string>)
    ensures r.Some? ==> exists q :: 0 < q <= |s| && r.value == s[..q] && EndsGroup(s, 0, q, delim, spaced)
                                    && forall q' :: 0 < q' < q ==> !EndsGroup(s, 0, q', delim, spaced)
    ensures r.None? ==> forall q :: 0 < q <= |s| ==> !EndsGroup(s, 0, q, delim, spaced)
  {
    if |s| == 0 then None
    else match LazyGroupEnd(s, 0, 1, delim, spaced)
      case None => None
      case Some(q) => Some(s[..q])
  }

  /** The explicit identifiers, tried in order: `[X]`, `(X)`, `X:`, `X -`, `X |`. */
  function ExplicitIdentifier(title: string): Option<string> {
    var bracket := Enclosed(title, '[', ']');
    if bracket.Some? then bracket
    else
      var paren := Enclosed(title, '(', ')');
      if paren.Some? then paren
      else
        var colon := Lead(title, ':', false);
        if colon.Some? then colon
        else
          var dash := Lead(title, '-', true);
          if dash.Some? then dash else Lead(title, '|', true)
  }

  /** The first known series phrase found in `s`, trying the phrases from the
      `k`-th on. */
  function PhraseFrom(s: string, k: nat): (r: Option<Found>)
    requires k <= |SeriesPatterns|
    ensures r.Some? ==> r.value.start <= r.value.end <= |s|
    ensures r.Some? <==> exists j :: k <= j < |SeriesPatterns| && Search(s, SeriesPatterns[j].0).Some?
    ensures r.Some? ==> exists j :: k <= j < |SeriesPatterns| && r == Search(s, SeriesPatterns[j].0)
                                    && forall i :: k <= i < j ==> Search(s, SeriesPatterns[i].0).None?
    decreases |SeriesPatterns| - k
  {
    if k == |SeriesPatterns| then None
    else
      var f := Search(s, SeriesPatterns[k].0);
      if f.Some? then f
      else
        var r := PhraseFrom(s, k + 1);
        assert forall j :: k <= j < |SeriesPatterns| && Search(s, SeriesPatterns[j].0).Some? ==> k + 1 <= j;
        r
  }

  /** The title with its date, `#n`, `(n)` and `hh:mm` suffixes cut out. */
  function BaseName(lower: string): string {
    Strip(DeleteAll(lower, SuffixPattern))
  }

  /** `extract_series_name`: an explicit identifier of the title (trimmed,
      with its case), else the first known phrase of the lower-cased title,
      else the lower-cased title without its numbered suffixes when that is
      longer than five characters. `Some("")` is the empty name the caller
      treats like no name. */
  function ExtractSeriesName(title: string): Option<string> {
    var lower := Strip(Lower(title));
    match ExplicitIdentifier(title)
    case Some(g) => Some(Strip(g))
    case None =>
      match PhraseFrom(lower, 0)
      case Some(f) => Some(Strip(lower[f.start..f.end]))
      case None =>
        var base := BaseName(lower);
        if |base| > 5 then Some(base) else None
  }

  /** A title without an explicit identifier is named after the first known
      phrase found in it, trimmed. */
  lemma PhraseName(title: string, f: Found)
    requires ExplicitIdentifier(title).None? && PhraseFrom(Strip(Lower(title)), 0) == Some(f)
    ensures ExtractSeriesName(title) == Some(Strip(Strip(Lower(title))[f.start..f.end]))
  {
  }

  /** Every name `extract_series_name` returns is trimmed, and a name from
      the suffix-stripping fallback is longer than five characters. */
  lemma NameTrimmed(title: string)
    ensures ExtractSeriesName(title).Some? ==> NoEdgeSpace(ExtractSeriesName(title).value)
    ensures (ExtractSeriesName(title).Some? && ExplicitIdentifier(title).None?
             && PhraseFrom(Strip(Lower(title)), 0).None?) ==> |ExtractSeriesName(title).value| > 5
  {
    var lower := Strip(Lower(title));
    match ExplicitIdentifier(title)
    case Some(g) => StripShape(g);
    case None =>
      match PhraseFrom(lower, 0)
      case Some(f) => StripShape(lower[f.start..f.end]);
      case None => StripShape(DeleteAll(lower, SuffixPattern));
  }

  // ---- Series keys ----

  /** Characters kept in a key: word characters, whitespace and `-`. */
  predicate KeyChar(c: char) {
    IsWordChar(c) || IsSpace(c) || c == '-'
  }

  function KeepKeyChars(s: string): (r: string)
    ensures forall c <- r :: KeyChar(c) && c in s
    decreases |s|
  {
    if s == [] then []
    else (if KeyChar(s[0]) then [s[0]] else []) + KeepKeyChars(s[1..])
  }

  /** `_normalize_series_key`: lower-case, drop every character other than a
      word character, whitespace or `-`, collapse whitespace runs to one
      space and trim. */
  function NormalizeSeriesKey(text: string): string {
    Strip(CollapseWs(KeepKeyChars(Lower(text))))
  }

  /** The date and time patterns cut out of `text`, whitespace collapsed and
      the ends trimmed. */
  function DateTimeStripped(text: string): string {
    Strip(CollapseWs(DeleteEach(text, DateTimePatterns)))
  }

  /** `extract_series_key`: the normalised series name of the lower-cased,
      trimmed title, or when it has none the normalised title without its
      dates and times. */
  function ExtractSeriesKey(title: string): string {
    var t := Strip(Lower(title));
    match ExtractSeriesName(t)
    case Some(n) => if n != [] then NormalizeSeriesKey(n) else NormalizeSeriesKey(DateTimeStripped(t))
    case None => NormalizeSeriesKey(DateTimeStripped(t))
  }

  /** `_remove_date_time_patterns`: applies each date and time pattern in
      turn, then collapses whitespace and trims. */
  method RemoveDateTimePatterns(text: string) returns (r: string)
    ensures r == DateTimeStripped(text)
  {
    var result := text;
    for i := 0 to |DateTimePatterns|
      invariant DeleteEach(result, DateTimePatterns[i..]) == DeleteEach(text, DateTimePatterns)
    {
      assert DateTimePatterns[i..] == [DateTimePatterns[i]] + DateTimePatterns[i + 1..];
      result := DeleteAll(result, DateTimePatterns[i]);
    }
    assert DateTimePatterns[|DateTimePatterns|..] == [];
    r := Strip(CollapseWs(result));
  }

  /** A normalised key is made of word characters, single spaces and `-`,
      does not start or end with a space, and is in lower case. */
  predicate NormalKey(k: string) {
    && (forall c <- k :: IsWordChar(c) || c == ' ' || c == '-')
    && (forall c <- k :: LowerChar(c) == c)
    && NoEdgeSpace(k)
    && SingleSpaced(k)
  }

  lemma SpaceNotWord(c: char)
    ensures IsSpace(c) ==> !IsWordChar(c)
  {
  }

  /** Whitespace handling keeps a text's characters or turns them into spaces. */
  lemma StripSingleSpaced(s: string)
    requires SingleSpaced(s)
    ensures SingleSpaced(Strip(s))
    ensures forall c <- Strip(s) :: c in s
  {
    StripShape(s);
    var i, j :| 0 <= i <= j <= |s| && Strip(s) == s[i..j]
                && (forall k :: 0 <= k < i ==> IsSpace(s[k]))
                && (forall k :: j <= k < |s| ==> IsSpace(s[k]));
    var t := s[i..j];
    forall k | 0 <= k < |t| - 1 ensures !(t[k] == ' ' && t[k + 1] == ' ') {
      assert t[k] == s[i + k] && t[k + 1] == s[i + k + 1];
    }
    forall k | 0 <= k < |t| && IsSpace(t[k]) ensures t[k] == ' ' {
      assert t[k] == s[i + k];
    }
  }

  lemma {:induction false} LowerFixed(s: string)
    ensures forall c <- Lower(s) :: LowerChar(c) == c
  {
    forall c | c in Lower(s) ensures LowerChar(c) == c {
      var k :| 0 <= k < |Lower(s)| && Lower(s)[k] == c;
      LowerCharFacts(s[k]);
    }
  }

  /** Every normalised key has the normal shape. */
  lemma NormalizeShape(text: string)
    ensures NormalKey(NormalizeSeriesKey(text))
  {
    var kept := KeepKeyChars(Lower(text));
    var collapsed := CollapseWs(kept);
    CollapseWsFacts(kept);
    StripSingleSpaced(collapsed);
    StripShape(collapsed);
    LowerFixed(text);
    var r := NormalizeSeriesKey(text);
    forall c | c in r ensures (IsWordChar(c) || c == ' ' || c == '-') && LowerChar(c) == c {
      assert c in collapsed;
      var k :| 0 <= k < |collapsed| && collapsed[k] == c;
      SpaceNotWord(c);
      if c != ' ' {
        assert c in kept;
      }
    }
  }

  lemma {:induction false} KeepKeyCharsFixed(s: string)
    requires forall c <- s :: KeyChar(c)
    ensures KeepKeyChars(s) == s
    decreases |s|
  {
    if s != [] {
      KeepKeyCharsFixed(s[1..]);
    }
  }

  lemma {:induction false} LowerOfFixed(s: string)
    requires forall c <- s :: LowerChar(c) == c
    ensures Lower(s) == s
  {
  }

  /** A key in normal shape normalises to itself. */
  lemma NormalKeyFixed(k: string)
    requires NormalKey(k)
    ensures NormalizeSeriesKey(k) == k
  {
    LowerOfFixed(k);
    KeepKeyCharsFixed(k);
    CollapseWsFixed(k);
    StripNoEdge(k);
  }

  /** `_normalize_series_key` is idempotent. */
  lemma NormalizeIdempotent(text: string)
    ensures NormalizeSeriesKey(NormalizeSeriesKey(text)) == NormalizeSeriesKey(text)
  {
    NormalizeShape(text);
    NormalKeyFixed(NormalizeSeriesKey(text));
  }

  /** Every series key is a normalised key. */
  lemma KeyShape(title: string)
    ensures NormalKey(ExtractSeriesKey(title))
  {
    var t := Strip(Lower(title));
    NormalizeShape(DateTimeStripped(t));
    match ExtractSeriesName(t)
    case Some(n) => NormalizeShape(n);
    case None =>
  }

  // ---- The previous meeting of a series ----

  function DateOf(m: Meeting): Option<int> {
    m.date
  }

  /** Accepts the records whose title has the series key `key`. */
  function InSeries(key: string): Meeting -> bool {
    (m: Meeting) => ExtractSeriesKey(m.title) == key
  }

  /** `find_previous_in_series`: among the records with the series key of
      `title` dated strictly before `date`, the first one (in list order) with
      the latest date; `None` when there is none. Undated records are skipped. */
  method FindPreviousInSeries(title: string, date: int, all: seq<Meeting>) returns (r: Option<Meeting>)
    ensures IsLatestEarlier(all, InSeries(ExtractSeriesKey(title)), DateOf, date, r)
  {
    var key := ExtractSeriesKey(title);
    r := LatestEarlier(all, InSeries(key), DateOf, date);
  }

  // ---- Cadence ----

  /** Every record carries a date. */
  predicate AllDated(ms: seq<Meeting>) {
    forall m <- ms :: m.date.Some?
  }

  function Dates(ms: seq<Meeting>): (ds: seq<int>)
    requires AllDated(ms)
    ensures |ds| == |ms| && forall i :: 0 <= i < |ms| ==> ds[i] == ms[i].date.value
  {
    seq(|ms|, i requires 0 <= i < |ms| => ms[i].date.value)
  }

  const DaySeconds := 86400

  /** Sum of the whole days between consecutive instants (`timedelta.days`
      rounds down). */
  function GapDaySum(ds: seq<int>): int
    decreases |ds|
  {
    if |ds| < 2 then 0
    else GapDaySum(ds[..|ds| - 1]) + (ds[|ds| - 1] - ds[|ds| - 2]) / DaySeconds
  }

  /** The cadence of `n` intervals summing to `sum` days: the mean interval
      `sum / n` at most 1.5 is daily, in [5, 9] weekly, in [12, 16] biweekly,
      in [25, 35] monthly, anything else ad hoc. */
  function Classify(sum: int, n: nat): Cadence
    requires n > 0
  {
    if 2 * sum <= 3 * n then Daily
    else if 5 * n <= sum <= 9 * n then Weekly
    else if 12 * n <= sum <= 16 * n then Biweekly
    else if 25 * n <= sum <= 35 * n then Monthly
    else Adhoc
  }

  function Id(x: int): int { x }

  /** The cadence of a series: ad hoc below two records, otherwise the class of
      the mean whole-day gap between the records sorted by date. */
  function PatternOf(ms: seq<Meeting>): Cadence
    requires |ms| >= 2 ==> AllDated(ms)
  {
    if |ms| < 2 then Adhoc
    else
      SortByFacts(Dates(ms), Id);
      Classify(GapDaySum(SortBy(Dates(ms), Id)), |ms| - 1)
  }

  /** `detect_meeting_pattern`: sorts the dates, sums the whole-day gaps in a
      loop and classifies the mean gap. */
  method DetectMeetingPattern(ms: seq<Meeting>) returns (p: Cadence)
    requires |ms| >= 2 ==> AllDated(ms)
    ensures p == PatternOf(ms)
  {
    if |ms| < 2 {
      return Adhoc;
    }
    var sorted := SortBy(Dates(ms), Id);
    SortByFacts(Dates(ms), Id);
    var total := 0;
    for i := 1 to |sorted|
      invariant total == GapDaySum(sorted[..i])
    {
      assert sorted[..i + 1][..i] == sorted[..i];
      total := total + (sorted[i] - sorted[i - 1]) / DaySeconds;
    }
    assert sorted[..|sorted|] == sorted;
    p := Classify(total, |sorted| - 1);
  }

  predicate Ascending(ds: seq<int>) {
    forall i, j :: 0 <= i < j < |ds| ==> ds[i] <= ds[j]
  }

  lemma HeadIsLeast(a: seq<int>, x: int)
    requires Ascending(a) && x in multiset(a)
    ensures a[0] <= x
  {
    assert x in a;
    var i :| 0 <= i < |a| && a[i] == x;
  }
  lemma TailMultiset(a: seq<int>)
    requires a != []
    ensures multiset(a[1..]) == multiset(a) - multiset{a[0]}
  {
    assert a == [a[0]] + a[1..];
  }
  lemma AscendingTail(a: seq<int>)
    requires Ascending(a) && a != []
    ensures Ascending(a[1..])
  {
  }
  lemma HeadStep(a: seq<int>, b: seq<int>)
    requires Ascending(a) && Ascending(b) && multiset(a) == multiset(b) && a != []
    ensures b != [] && a[0] == b[0]
    ensures Ascending(a[1..]) && Ascending(b[1..]) && multiset(a[1..]) == multiset(b[1..])
  {
    assert |a| == |multiset(a)| == |b|;
    AscendingTail(a);
    AscendingTail(b);
    HeadIsLeast(a, b[0]);
    HeadIsLeast(b, a[0]);
    TailMultiset(a);
    TailMultiset(b);
  }
  lemma ConsEqual(a: seq<int>, b: seq<int>)
    requires a != [] && b != [] && a[0] == b[0] && a[1..] == b[1..]
    ensures a == b
  {
    assert a == [a[0]] + a[1..];
    assert b == [b[0]] + b[1..];
  }
  /** Two ascending sequences with the same elements are equal. */
  lemma {:induction false} AscendingUnique(a: seq<int>, b: seq<int>)
    requires Ascending(a) && Ascending(b) && multiset(a) == multiset(b)
    ensures a == b
    decreases |a|
  {
    if a == [] {
      assert |b| == |multiset(b)| == 0;
    } else {
      HeadStep(a, b);
      AscendingUnique(a[1..], b[1..]);
      ConsEqual(a, b);
    }
  }

  lemma SortedIdIsAscending(ds: seq<int>)
    ensures Ascending(SortBy(ds, Id)) && multiset(SortBy(ds, Id)) == multiset(ds)
  {
    SortByFacts(ds, Id);
  }

  /** The cadence depends only on the dates, not on the order of the records. */
  lemma PatternIgnoresOrder(a: seq<Meeting>, b: seq<Meeting>)
    requires AllDated(a) && AllDated(b) && |a| == |b|
    requires multiset(Dates(a)) == multiset(Dates(b))
    ensures PatternOf(a) == PatternOf(b)
  {
    SortedIdIsAscending(Dates(a));
    SortedIdIsAscending(Dates(b));
    AscendingUnique(SortBy(Dates(a), Id), SortBy(Dates(b), Id));
  }

  /** Instants `step` whole days apart, starting at `start`. */
  function Evenly(start: int, step: nat, n: nat): (ds: seq<int>)
    ensures |ds| == n
  {
    seq(n, i requires 0 <= i < n => start + i * step * DaySeconds)
  }

  lemma {:induction false} EvenlyGaps(start: int, step: nat, n: nat)
    ensures GapDaySum(Evenly(start, step, n)) == if n < 2 then 0 else (n - 1) * step
    decreases n
  {
    if n >= 2 {
      var ds := Evenly(start, step, n);
      assert ds[..n - 1] == Evenly(start, step, n - 1);
      EvenlyGaps(start, step, n - 1);
      assert ds[n - 1] - ds[n - 2] == step * DaySeconds;
    }
  }

  lemma EvenlyAscending(start: int, step: nat, n: nat)
    ensures Ascending(Evenly(start, step, n))
  {
    var ds := Evenly(start, step, n);
    forall i, j | 0 <= i < j < n ensures ds[i] <= ds[j] {
      assert ds[j] - ds[i] == (j - i) * step * DaySeconds;
    }
  }

  /** The cadence of a constant gap of `step` whole days: at most one day is
      daily, 5 to 9 weekly, 12 to 16 biweekly, 25 to 35 monthly, any other gap
      ad hoc. */
  function StepCadence(step: nat): Cadence {
    if step <= 1 then Daily
    else if 5 <= step <= 9 then Weekly
    else if 12 <= step <= 16 then Biweekly
    else if 25 <= step <= 35 then Monthly
    else Adhoc
  }

  lemma {:induction false} MulBounds(n: nat, lo: nat, step: nat, hi: nat)
    requires lo <= step <= hi
    ensures n * lo <= n * step <= n * hi
    decreases n
  {
    if n > 0 {
      MulBounds(n - 1, lo, step, hi);
      assert n * step == (n - 1) * step + step;
      assert n * lo == (n - 1) * lo + lo;
      assert n * hi == (n - 1) * hi + hi;
    }
  }

  /** A constant gap of `step` days over `n` intervals classifies as the step. */
  lemma ClassifyConstantGap(n: nat, step: nat)
    requires n > 0
    ensures Classify(n * step, n) == StepCadence(step)
  {
    if step <= 1 {
      MulBounds(n, 0, step, 1);
    } else if step < 5 {
      MulBounds(n, 2, step, 4);
    } else if step <= 9 {
      MulBounds(n, 5, step, 9);
    } else if step < 12 {
      MulBounds(n, 10, step, 11);
    } else if step <= 16 {
      MulBounds(n, 12, step, 16);
    } else if step < 25 {
      MulBounds(n, 17, step, 24);
    } else if step <= 35 {
      MulBounds(n, 25, step, 35);
    } else {
      MulBounds(n, 36, step, step);
    }
  }

  /** Records whose dates are `step` whole days apart, in any order, get the
      cadence of that step. */
  lemma EvenlySpacedCadence(ms: seq<Meeting>, start: int, step: nat)
    requires |ms| >= 2 && AllDated(ms)
    requires multiset(Dates(ms)) == multiset(Evenly(start, step, |ms|))
    ensures PatternOf(ms) == StepCadence(step)
  {
    var ev := Evenly(start, step, |ms|);
    SortedIdIsAscending(Dates(ms));
    EvenlyAscending(start, step, |ms|);
    AscendingUnique(SortBy(Dates(ms), Id), ev);
    EvenlyGaps(start, step, |ms|);
    ClassifyConstantGap(|ms| - 1, step);
  }

  /** Instants `step` whole days apart, newest first, ending at `start`. */
  function EvenlyDown(start: int, step: nat, n: nat): (ds: seq<int>)
    ensures |ds| == n
  {
    seq(n, i requires 0 <= i < n => start + (n - 1 - i) * step * DaySeconds)
  }

  lemma {:induction false} EvenlyDownSameDates(start: int, step: nat, n: nat)
    ensures multiset(EvenlyDown(start, step, n)) == multiset(Evenly(start, step, n))
    decreases n
  {
    if n > 0 {
      EvenlyDownSameDates(start, step, n - 1);
      var top := start + (n - 1) * step * DaySeconds;
      assert EvenlyDown(start, step, n) == [top] + EvenlyDown(start, step, n - 1);
      assert Evenly(start, step, n) == Evenly(start, step, n - 1) + [top];
    }
  }

  /** Records listed newest first, `step` whole days apart, get the cadence of
      that step. */
  lemma NewestFirstCadence(ms: seq<Meeting>, start: int, step: nat)
    requires |ms| >= 2 && AllDated(ms)
    requires Dates(ms) == EvenlyDown(start, step, |ms|)
    ensures PatternOf(ms) == StepCadence(step)
  {
    EvenlyDownSameDates(start, step, |ms|);
    EvenlySpacedCadence(ms, start, step);
  }

  /** Five records one day apart, listed newest first, are daily. */
  lemma DailyExample(t: int)
    ensures PatternOf([Meeting("Daily Standup", Some(t), [], []),
                       Meeting("Daily Standup", Some(t - 86400), [], []),
                       Meeting("Daily Standup", Some(t - 172800), [], []),
                       Meeting("Daily Standup", Some(t - 259200), [], []),
                       Meeting("Daily Standup", Some(t - 345600), [], [])]) == Daily
  {
    var ms := [Meeting("Daily Standup", Some(t), [], []),
               Meeting("Daily Standup", Some(t - 86400), [], []),
               Meeting("Daily Standup", Some(t - 172800), [], []),
               Meeting("Daily Standup", Some(t - 259200), [], []),
               Meeting("Daily Standup", Some(t - 345600), [], [])];
    var e := EvenlyDown(t - 345600, 1, 5);
    assert e[0] == t && e[1] == t - 86400 && e[2] == t - 172800 && e[3] == t - 259200 && e[4] == t - 345600;
    NewestFirstCadence(ms, t - 345600, 1);
  }

  /** Four records one week apart, listed newest first, are weekly. */
  lemma WeeklyExample(t: int)
    ensures PatternOf([Meeting("Weekly Review", Some(t), [], []),
                       Meeting("Weekly Review", Some(t - 604800), [], []),
                       Meeting("Weekly Review", Some(t - 1209600), [], []),
                       Meeting("Weekly Review", Some(t - 1814400), [], [])]) == Weekly
  {
    var ms := [Meeting("Weekly Review", Some(t), [], []),
               Meeting("Weekly Review", Some(t - 604800), [], []),
               Meeting("Weekly Review", Some(t - 1209600), [], []),
               Meeting("Weekly Review", Some(t - 1814400), [], [])];
    var e := EvenlyDown(t - 1814400, 7, 4);
    assert e[0] == t && e[1] == t - 604800 && e[2] == t - 1209600 && e[3] == t - 1814400;
    NewestFirstCadence(ms, t - 1814400, 7);
  }

  // ---- Common participants and keywords ----

  /** Number of occurrences of `x` in `s`. */
  function Count(s: seq<string>, x: string): nat
    decreases |s|
  {
    if s == [] then 0 else Count(s[..|s| - 1], x) + (if s[|s| - 1] == x then 1 else 0)
  }

  lemma {:induction false} CountPositive(s: seq<string>, x: string)
    ensures Count(s, x) > 0 <==> x in s
    decreases |s|
  {
    if s != [] {
      CountPositive(s[..|s| - 1], x);
      assert s == s[..|s| - 1] + [s[|s| - 1]];
    }
  }

  /** How often `p` is listed as a participant, over all records. */
  function ParticipantCount(ms: seq<Meeting>, p: string): nat
    decreases |ms|
  {
    if ms == [] then 0 else ParticipantCount(ms[..|ms| - 1], p) + Count(ms[|ms| - 1].participants, p)
  }

  /** The lower-cased keywords of a record. */
  function LowerKeywords(m: Meeting): seq<string> {
    seq(|m.keywords|, i requires 0 <= i < |m.keywords| => Lower(m.keywords[i]))
  }

  /** How often `k` is listed as a keyword (compared in lower case), over all
      records. */
  function KeywordCount(ms: seq<Meeting>, k: string): nat
    decreases |ms|
  {
    if ms == [] then 0 else KeywordCount(ms[..|ms| - 1], k) + Count(LowerKeywords(ms[|ms| - 1]), k)
  }

  /** The participants listed in at least half of the records' lists. */
  function CommonParticipants(ms: seq<Meeting>): (r: set<string>)
    ensures forall p :: p in r <==> ParticipantCount(ms, p) > 0 && 2 * ParticipantCount(ms, p) >= |ms|
  {
    ListedParticipants(ms);
    set m, p | m in ms && p in m.participants && 2 * ParticipantCount(ms, p) >= |ms| :: p
  }

  lemma {:induction false} ListedParticipants(ms: seq<Meeting>)
    ensures forall p :: ParticipantCount(ms, p) > 0 <==> exists m :: m in ms && p in m.participants
    decreases |ms|
  {
    if ms != [] {
      var init := ms[..|ms| - 1];
      var last := ms[|ms| - 1];
      ListedParticipants(init);
      forall p ensures ParticipantCount(ms, p) > 0 <==> exists m :: m in ms && p in m.participants {
        CountPositive(last.participants, p);
        if ParticipantCount(init, p) > 0 {
          var m :| m in init && p in m.participants;
          assert m in ms;
        }
        if exists m :: m in ms && p in m.participants {
          var m :| m in ms && p in m.participants;
          if m != last {
            assert m in init by {
              var k :| 0 <= k < |ms| && ms[k] == m;
              assert k < |ms| - 1;
              assert init[k] == m;
            }
          }
        }
      }
    }
  }

  lemma {:induction false} ListedKeywords(ms: seq<Meeting>)
    ensures forall k :: KeywordCount(ms, k) > 0 <==> exists m :: m in ms && k in LowerKeywords(m)
    decreases |ms|
  {
    if ms != [] {
      var init := ms[..|ms| - 1];
      var last := ms[|ms| - 1];
      ListedKeywords(init);
      forall k ensures KeywordCount(ms, k) > 0 <==> exists m :: m in ms && k in LowerKeywords(m) {
        CountPositive(LowerKeywords(last), k);
        if KeywordCount(init, k) > 0 {
          var m :| m in init && k in LowerKeywords(m);
          assert m in ms;
        }
        if exists m :: m in ms && k in LowerKeywords(m) {
          var m :| m in ms && k in LowerKeywords(m);
          if m != last {
            assert m in init by {
              var j :| 0 <= j < |ms| && ms[j] == m;
              assert j < |ms| - 1;
              assert init[j] == m;
            }
          }
        }
      }
    }
  }

  /** The lower-cased keywords longer than three characters listed in at least
      30% of the records' lists. */
  function CommonKeywords(ms: seq<Meeting>): (r: set<string>)
    ensures forall k :: k in r <==> KeywordCount(ms, k) > 0 && 10 * KeywordCount(ms, k) >= 3 * |ms| && |k| > 3
  {
    ListedKeywords(ms);
    set m, k | m in ms && k in LowerKeywords(m) && 10 * KeywordCount(ms, k) >= 3 * |ms| && |k| > 3 :: k
  }

  /** `get_common_participants`: counts every listing in a table, then keeps
      the names counted at least half as often as there are records. */
  method GetCommonParticipants(ms: seq<Meeting>) returns (r: set<string>)
    ensures r == CommonParticipants(ms)
  {
    var counts: map<string, nat> := map[];
    for i := 0 to |ms|
      invariant forall p :: p in counts <==> ParticipantCount(ms[..i], p) > 0
      invariant forall p :: p in counts ==> counts[p] == ParticipantCount(ms[..i], p)
    {
      var ps := ms[i].participants;
      assert ms[..i + 1][..i] == ms[..i];
      for j := 0 to |ps|
        invariant forall p :: p in counts <==> ParticipantCount(ms[..i], p) + Count(ps[..j], p) > 0
        invariant forall p :: p in counts ==> counts[p] == ParticipantCount(ms[..i], p) + Count(ps[..j], p)
      {
        assert ps[..j + 1][..j] == ps[..j];
        counts := counts[ps[j] := (if ps[j] in counts then counts[ps[j]] else 0) + 1];
      }
      assert ps[..|ps|] == ps;
    }
    assert ms[..|ms|] == ms;
    r := set p | p in counts && 2 * counts[p] >= |ms|;
  }

  /** `get_common_keywords`: counts every lower-cased keyword in a table, then
      keeps those longer than three characters counted at least 0.3 times as
      often as there are records. */
  method GetCommonKeywords(ms: seq<Meeting>) returns (r: set<string>)
    ensures r == CommonKeywords(ms)
  {
    var counts: map<string, nat> := map[];
    for i := 0 to |ms|
      invariant forall k :: k in counts <==> KeywordCount(ms[..i], k) > 0
      invariant forall k :: k in counts ==> counts[k] == KeywordCount(ms[..i], k)
    {
      var ks := LowerKeywords(ms[i]);
      assert ms[..i + 1][..i] == ms[..i];
      for j := 0 to |ms[i].keywords|
        invariant forall k :: k in counts <==> KeywordCount(ms[..i], k) + Count(ks[..j], k) > 0
        invariant forall k :: k in counts ==> counts[k] == KeywordCount(ms[..i], k) + Count(ks[..j], k)
      {
        assert ks[..j + 1][..j] == ks[..j];
        var kw := Lower(ms[i].keywords[j]);
        counts := counts[kw := (if kw in counts then counts[kw] else 0) + 1];
      }
      assert ks[..|ks|] == ks;
    }
    assert ms[..|ms|] == ms;
    r := set k | k in counts && 10 * counts[k] >= 3 * |ms| && |k| > 3;
  }

  // ---- Grouping into series ----

  /** The records whose key under `keyOf` is `k`, in list order. */
  function Members(ms: seq<Meeting>, keyOf: Meeting -> string, k: string): (r: seq<Meeting>)
    ensures forall m <- r :: m in ms && keyOf(m) == k
    ensures |r| <= |ms|
    decreases |ms|
  {
    if ms == [] then []
    else Members(ms[..|ms| - 1], keyOf, k) + (if keyOf(ms[|ms| - 1]) == k then [ms[|ms| - 1]] else [])
  }

  /** The keys under `keyOf` in order of first appearance. */
  function KeyOrder(ms: seq<Meeting>, keyOf: Meeting -> string): (ks: seq<string>)
    decreases |ms|
  {
    if ms == [] then []
    else
      var ks := KeyOrder(ms[..|ms| - 1], keyOf);
      if keyOf(ms[|ms| - 1]) in ks then ks else ks + [keyOf(ms[|ms| - 1])]
  }

  /** A record whose group has two or more records carries a date (the
      cadence of such a group reads every date). */
  predicate GroupsDated(ms: seq<Meeting>, keyOf: Meeting -> string) {
    forall m <- ms :: |Members(ms, keyOf, keyOf(m))| >= 2 ==> m.date.Some?
  }

  lemma MembersDated(ms: seq<Meeting>, keyOf: Meeting -> string, k: string)
    requires GroupsDated(ms, keyOf)
    ensures |Members(ms, keyOf, k)| >= 2 ==> AllDated(Members(ms, keyOf, k))
  {
    if |Members(ms, keyOf, k)| >= 2 {
      forall m | m in Members(ms, keyOf, k) ensures m.date.Some? {
        assert m in ms && keyOf(m) == k;
      }
    }
  }

  /** The group-building loop of `identify_series`: appends each record to
      the list of its key, creating the list (and recording the key) on the
      key's first appearance. */
  method GroupByKey(ms: seq<Meeting>, keyOf: Meeting -> string)
    returns (keys: seq<string>, groups: map<string, seq<Meeting>>)
    ensures keys == KeyOrder(ms, keyOf)
    ensures forall k :: k in groups <==> k in keys
    ensures forall k :: k in groups ==> groups[k] == Members(ms, keyOf, k)
  {
    keys := [];
    groups := map[];
    for i := 0 to |ms|
      invariant keys == KeyOrder(ms[..i], keyOf)
      invariant forall k :: k in groups <==> k in keys
      invariant forall k :: k in groups ==> groups[k] == Members(ms[..i], keyOf, k)
    {
      assert ms[..i + 1][..i] == ms[..i];
      var k := keyOf(ms[i]);
      if k in groups {
        groups := groups[k := groups[k] + [ms[i]]];
      } else {
        assert Members(ms[..i], keyOf, k) == [] by {
          MembersOfAbsentKey(ms[..i], keyOf, k);
        }
        groups := groups[k := [ms[i]]];
        keys := keys + [k];
      }
    }
    assert ms[..|ms|] == ms;
  }

  lemma {:induction false} MembersOfAbsentKey(ms: seq<Meeting>, keyOf: Meeting -> string, k: string)
    requires k !in KeyOrder(ms, keyOf)
    ensures Members(ms, keyOf, k) == []
    decreases |ms|
  {
    if ms != [] {
      MembersOfAbsentKey(ms[..|ms| - 1], keyOf, k);
    }
  }

  /** Grouping is a partition: every record lies in the group of its own key,
      that key is listed, and the listed keys are distinct and each has a
      record. */
  lemma {:induction false} GroupingPartitions(ms: seq<Meeting>, keyOf: Meeting -> string)
    ensures forall m <- ms :: m in Members(ms, keyOf, keyOf(m)) && keyOf(m) in KeyOrder(ms, keyOf)
    ensures forall k <- KeyOrder(ms, keyOf) :: Members(ms, keyOf, k) != []
    ensures forall i, j :: 0 <= i < j < |KeyOrder(ms, keyOf)| ==> KeyOrder(ms, keyOf)[i] != KeyOrder(ms, keyOf)[j]
    decreases |ms|
  {
    if ms != [] {
      var init, last := ms[..|ms| - 1], ms[|ms| - 1];
      GroupingPartitions(init, keyOf);
      assert ms == init + [last];
      forall m <- ms ensures m in Members(ms, keyOf, keyOf(m)) && keyOf(m) in KeyOrder(ms, keyOf) {
        if m != last {
          assert m in init;
        }
      }
      forall k <- KeyOrder(ms, keyOf) ensures Members(ms, keyOf, k) != [] {
        if k != keyOf(last) {
          assert k in KeyOrder(init, keyOf);
          assert Members(ms, keyOf, k) == Members(init, keyOf, k);
        }
      }
    }
  }

  /** Each record is counted in exactly one group: the group sizes over the
      listed keys add up to the number of records. */
  function GroupSizes(ms: seq<Meeting>, keyOf: Meeting -> string, ks: seq<string>): nat
    decreases |ks|
  {
    if ks == [] then 0 else GroupSizes(ms, keyOf, ks[..|ks| - 1]) + |Members(ms, keyOf, ks[|ks| - 1])|
  }

  lemma {:induction false} GroupSizesSnoc(ms: seq<Meeting>, keyOf: Meeting -> string, m: Meeting, ks: seq<string>)
    requires forall i, j :: 0 <= i < j < |ks| ==> ks[i] != ks[j]
    ensures GroupSizes(ms + [m], keyOf, ks) == GroupSizes(ms, keyOf, ks) + (if keyOf(m) in ks then 1 else 0)
    decreases |ks|
  {
    if ks != [] {
      var init := ks[..|ks| - 1];
      GroupSizesSnoc(ms, keyOf, m, init);
      assert (ms + [m])[..|ms + [m]| - 1] == ms;
      assert keyOf(m) in ks <==> keyOf(m) in init || keyOf(m) == ks[|ks| - 1] by {
        assert ks == init + [ks[|ks| - 1]];
      }
      if keyOf(m) == ks[|ks| - 1] {
        assert keyOf(m) !in init;
      }
    }
  }

  lemma {:induction false} GroupSizesNew(ms: seq<Meeting>, keyOf: Meeting -> string, ks: seq<string>, k: string)
    requires k !in KeyOrder(ms, keyOf)
    ensures GroupSizes(ms, keyOf, ks + [k]) == GroupSizes(ms, keyOf, ks)
  {
    assert (ks + [k])[..|ks + [k]| - 1] == ks;
    MembersOfAbsentKey(ms, keyOf, k);
  }

  lemma KeyOrderDistinct(ms: seq<Meeting>, keyOf: Meeting -> string)
    ensures forall i, j :: 0 <= i < j < |KeyOrder(ms, keyOf)| ==> KeyOrder(ms, keyOf)[i] != KeyOrder(ms, keyOf)[j]
  {
    GroupingPartitions(ms, keyOf);
  }

  lemma {:induction false} GroupSizesTotal(ms: seq<Meeting>, keyOf: Meeting -> string)
    ensures GroupSizes(ms, keyOf, KeyOrder(ms, keyOf)) == |ms|
    decreases |ms|
  {
    if ms != [] {
      var init, last := ms[..|ms| - 1], ms[|ms| - 1];
      var ks := KeyOrder(init, keyOf);
      assert GroupSizes(init, keyOf, ks) == |init| by {
        GroupSizesTotal(init, keyOf);
      }
      assert GroupSizes(ms, keyOf, ks) == |init| + (if keyOf(last) in ks then 1 else 0) by {
        KeyOrderDistinct(init, keyOf);
        assert ms == init + [last];
        GroupSizesSnoc(init, keyOf, last, ks);
      }
      if keyOf(last) !in ks {
        var k := keyOf(last);
        calc {
          GroupSizes(ms, keyOf, KeyOrder(ms, keyOf));
        == { assert ms[..|ms| - 1] == init; }
          GroupSizes(ms, keyOf, ks + [k]);
        == { assert (ks + [k])[..|ks|] == ks; }
          GroupSizes(ms, keyOf, ks) + |Members(ms, keyOf, k)|;
        == { assert ms[..|ms| - 1] == init;
             MembersOfAbsentKey(init, keyOf, k); }
          |init| + 1;
        }
      } else {
        assert KeyOrder(ms, keyOf) == ks by {
          assert ms[..|ms| - 1] == init;
        }
      }
    }
  }

  /** The first non-empty name `nameOf` gives a record of the group, in
      order, or else `fallback`. */
  function FirstName(group: seq<Meeting>, nameOf: Meeting -> Option<string>, fallback: string): string
    decreases |group|
  {
    if group == [] then fallback
    else
      var n := nameOf(group[0]);
      if n.Some? && n.value != [] then n.value else FirstName(group[1..], nameOf, fallback)
  }

  /** The name is the fallback or the first non-empty name of the group. */
  lemma {:induction false} FirstNameIsFirst(group: seq<Meeting>, nameOf: Meeting -> Option<string>, fallback: string)
    ensures var n := FirstName(group, nameOf, fallback);
            || (n == fallback && forall m <- group :: nameOf(m).None? || nameOf(m).value == [])
            || exists i :: 0 <= i < |group| && nameOf(group[i]) == Some(n) && n != []
                           && forall j :: 0 <= j < i ==> nameOf(group[j]).None? || nameOf(group[j]).value == []
    decreases |group|
  {
    if group != [] {
      FirstNameIsFirst(group[1..], nameOf, fallback);
      var n := FirstName(group, nameOf, fallback);
      var h := nameOf(group[0]);
      if !(h.Some? && h.value != []) {
        if exists i :: 0 <= i < |group[1..]| && nameOf(group[1..][i]) == Some(n) && n != []
                       && forall j :: 0 <= j < i ==> nameOf(group[1..][j]).None? || nameOf(group[1..][j]).value == [] {
          var i :| 0 <= i < |group[1..]| && nameOf(group[1..][i]) == Some(n) && n != []
                   && forall j :: 0 <= j < i ==> nameOf(group[1..][j]).None? || nameOf(group[1..][j]).value == [];
          forall j | 0 <= j < i + 1 ensures nameOf(group[j]).None? || nameOf(group[j]).value == [] {
            if j > 0 {
              assert group[j] == group[1..][j - 1];
            }
          }
        } else {
          forall m <- group ensures nameOf(m).None? || nameOf(m).value == [] {
            if m != group[0] {
              assert m in group[1..];
            }
          }
        }
      }
    }
  }

  /** The loop of `_create_series` that picks the series name. */
  method PickName(group: seq<Meeting>, nameOf: Meeting -> Option<string>, fallback: string) returns (name: string)
    ensures name == FirstName(group, nameOf, fallback)
  {
    name := fallback;
    var i := 0;
    while i < |group|
      invariant 0 <= i <= |group|
      invariant FirstName(group, nameOf, fallback) == FirstName(group[i..], nameOf, fallback)
    {
      var n := nameOf(group[i]);
      assert group[i..][1..] == group[i + 1..];
      if n.Some? && n.value != [] {
        return n.value;
      }
      i := i + 1;
    }
    assert group[i..] == [];
  }

  /** `_create_series` for a non-empty group. */
  function CreateSeries(key: string, group: seq<Meeting>, nameOf: Meeting -> Option<string>): MeetingSeries
    requires |group| >= 2 ==> AllDated(group)
  {
    MeetingSeries(key, FirstName(group, nameOf, key), PatternOf(group), group,
                  CommonParticipants(group), CommonKeywords(group))
  }

  method CreateSeriesM(key: string, group: seq<Meeting>, nameOf: Meeting -> Option<string>) returns (s: MeetingSeries)
    requires |group| >= 2 ==> AllDated(group)
    ensures s == CreateSeries(key, group, nameOf)
  {
    var name := PickName(group, nameOf, key);
    var pattern := DetectMeetingPattern(group);
    var participants := GetCommonParticipants(group);
    var keywords := GetCommonKeywords(group);
    s := MeetingSeries(key, name, pattern, group, participants, keywords);
  }

  /** The series of the records with key `k`. */
  function GroupSeries(ms: seq<Meeting>, keyOf: Meeting -> string, nameOf: Meeting -> Option<string>, k: string): MeetingSeries
    requires GroupsDated(ms, keyOf) && |Members(ms, keyOf, k)| >= 2
  {
    MembersDated(ms, keyOf, k);
    CreateSeries(k, Members(ms, keyOf, k), nameOf)
  }

  /** The series of the keys `ks`, one per key with two or more records. */
  function SeriesOver(ms: seq<Meeting>, keyOf: Meeting -> string, nameOf: Meeting -> Option<string>, ks: seq<string>): seq<MeetingSeries>
    requires GroupsDated(ms, keyOf)
    decreases |ks|
  {
    if ks == [] then []
    else
      var k := ks[|ks| - 1];
      SeriesOver(ms, keyOf, nameOf, ks[..|ks| - 1])
        + (if |Members(ms, keyOf, k)| >= 2 then [GroupSeries(ms, keyOf, nameOf, k)] else [])
  }

  /** The cache entries written for the keys `ks`, in order. */
  function SeriesEntries(ms: seq<Meeting>, keyOf: Meeting -> string, nameOf: Meeting -> Option<string>, ks: seq<string>): map<string, MeetingSeries>
    requires GroupsDated(ms, keyOf)
    decreases |ks|
  {
    if ks == [] then map[]
    else
      var k := ks[|ks| - 1];
      var prev := SeriesEntries(ms, keyOf, nameOf, ks[..|ks| - 1]);
      if |Members(ms, keyOf, k)| >= 2 then prev[k := GroupSeries(ms, keyOf, nameOf, k)] else prev
  }

  /** The cache holds exactly the keys of `ks` with two or more records, each
      with the series of its group. */
  lemma {:induction false} SeriesEntriesKeys(ms: seq<Meeting>, keyOf: Meeting -> string, nameOf: Meeting -> Option<string>, ks: seq<string>, k: string)
    requires GroupsDated(ms, keyOf)
    ensures k in SeriesEntries(ms, keyOf, nameOf, ks) <==> k in ks && |Members(ms, keyOf, k)| >= 2
    ensures k in SeriesEntries(ms, keyOf, nameOf, ks) ==>
              SeriesEntries(ms, keyOf, nameOf, ks)[k] == GroupSeries(ms, keyOf, nameOf, k)
    decreases |ks|
  {
    if ks != [] {
      var init, last := ks[..|ks| - 1], ks[|ks| - 1];
      SeriesEntriesKeys(ms, keyOf, nameOf, init, k);
      assert ks == init + [last];
      assert k in ks <==> k in init || k == last;
    }
  }

  /** `_create_series` called on the group of key `k`. */
  method GroupSeriesM(ms: seq<Meeting>, keyOf: Meeting -> string, nameOf: Meeting -> Option<string>, k: string,
                      group: seq<Meeting>) returns (s: MeetingSeries)
    requires GroupsDated(ms, keyOf) && group == Members(ms, keyOf, k) && |group| >= 2
    ensures s == GroupSeries(ms, keyOf, nameOf, k)
  {
    MembersDated(ms, keyOf, k);
    s := CreateSeriesM(k, group, nameOf);
  }

  /** One more key adds its series, and its cache entry, exactly when its
      group has two or more records. */
  lemma SeriesSnoc(ms: seq<Meeting>, keyOf: Meeting -> string, nameOf: Meeting -> Option<string>, ks: seq<string>, i: nat)
    requires GroupsDated(ms, keyOf) && i < |ks|
    ensures |Members(ms, keyOf, ks[i])| >= 2 ==>
              && SeriesOver(ms, keyOf, nameOf, ks[..i + 1])
                 == SeriesOver(ms, keyOf, nameOf, ks[..i]) + [GroupSeries(ms, keyOf, nameOf, ks[i])]
              && SeriesEntries(ms, keyOf, nameOf, ks[..i + 1])
                 == SeriesEntries(ms, keyOf, nameOf, ks[..i])[ks[i] := GroupSeries(ms, keyOf, nameOf, ks[i])]
    ensures |Members(ms, keyOf, ks[i])| < 2 ==>
              && SeriesOver(ms, keyOf, nameOf, ks[..i + 1]) == SeriesOver(ms, keyOf, nameOf, ks[..i])
              && SeriesEntries(ms, keyOf, nameOf, ks[..i + 1]) == SeriesEntries(ms, keyOf, nameOf, ks[..i])
  {
    assert ks[..i + 1][..i] == ks[..i];
  }

  /** The series-building pass of `identify_series` for any key and name
      extraction: the series of the groups with two or more records, in order
      of the keys' first appearance, and the cache entries for them. */
  method SeriesBy(ms: seq<Meeting>, keyOf: Meeting -> string, nameOf: Meeting -> Option<string>)
    returns (list: seq<MeetingSeries>, entries: map<string, MeetingSeries>)
    requires GroupsDated(ms, keyOf)
    ensures list == SeriesOver(ms, keyOf, nameOf, KeyOrder(ms, keyOf))
    ensures entries == SeriesEntries(ms, keyOf, nameOf, KeyOrder(ms, keyOf))
  {
    var keys, groups := GroupByKey(ms, keyOf);
    list := [];
    entries := map[];
    for i := 0 to |keys|
      invariant list == SeriesOver(ms, keyOf, nameOf, keys[..i])
      invariant entries == SeriesEntries(ms, keyOf, nameOf, keys[..i])
    {
      var k := keys[i];
      var group := groups[k];
      assert group == Members(ms, keyOf, k);
      MembersDated(ms, keyOf, k);
      SeriesSnoc(ms, keyOf, nameOf, keys, i);
      if |group| >= 2 {
        var series := GroupSeriesM(ms, keyOf, nameOf, k, group);
        list := list + [series];
        entries := entries[k := series];
      }
    }
    assert keys[..|keys|] == keys;
  }

  /** Every series built has two or more records, all with its key, and its
      key is one of `ks`. */
  lemma {:induction false} SeriesOverFacts(ms: seq<Meeting>, keyOf: Meeting -> string, nameOf: Meeting -> Option<string>, ks: seq<string>)
    requires GroupsDated(ms, keyOf)
    ensures forall s <- SeriesOver(ms, keyOf, nameOf, ks) ::
              && s.seriesId in ks
              && s.meetings == Members(ms, keyOf, s.seriesId)
              && |s.meetings| >= 2
              && (forall m <- s.meetings :: keyOf(m) == s.seriesId)
    decreases |ks|
  {
    if ks != [] {
      SeriesOverFacts(ms, keyOf, nameOf, ks[..|ks| - 1]);
      assert ks == ks[..|ks| - 1] + [ks[|ks| - 1]];
    }
  }

  /** The series key and the series name of a record's title. */
  function Key(m: Meeting): string {
    ExtractSeriesKey(m.title)
  }

  function TitleName(m: Meeting): Option<string> {
    ExtractSeriesName(m.title)
  }

  /** The series `identify_series` returns. */
  function SeriesList(ms: seq<Meeting>): seq<MeetingSeries>
    requires GroupsDated(ms, Key)
  {
    SeriesOver(ms, Key, TitleName, KeyOrder(ms, Key))
  }

  class Analyzer {
    var seriesCache: map<string, MeetingSeries>

    constructor()
      ensures seriesCache == map[]
    {
      seriesCache := map[];
    }

    /** `identify_series`: groups the records by series key, in order of first
        appearance, and turns every group of two or more records into a series,
        which is also stored in the cache under its key. */
    method IdentifySeries(ms: seq<Meeting>) returns (list: seq<MeetingSeries>)
      requires GroupsDated(ms, Key)
      modifies this
      ensures list == SeriesList(ms)
      ensures seriesCache == old(seriesCache) + SeriesEntries(ms, Key, TitleName, KeyOrder(ms, Key))
    {
      var entries;
      list, entries := SeriesBy(ms, Key, TitleName);
      seriesCache := seriesCache + entries;
    }
  }
}
