/** The fixed regular expressions of the bot, hand-coded as token sequences
    with a small matcher.

    Every quantified token here is followed by a token that cannot start with
    a character the quantifier consumes (digits before `/`, `-` or `:`,
    whitespace before a digit or a letter, letters before whitespace), and
    every alternation in the middle of a pattern has alternatives of which at
    most one occurs at a position. For such patterns, matching each token
    greedily without giving characters back finds the same match as Python's
    backtracking matcher. The one token that needs backtracking,
    `(\w+\s*)*(w1|...)`, has its own rule (`WordsThen`). */
module Patterns {
  import opened Text

  /** Character classes used by the repetition tokens. */
  datatype CharSet = DigitSet | SpaceSet | LowerAsciiSet | WordOrSpaceSet

  datatype Tok =
    | Lit(text: string)               // literal text
    | Alt(words: seq<string>)         // (w1|w2|...): the first word found there
    | Class(chars: string)            // [...]: one character of the list
    | Digits(min: nat, max: nat)      // \d{min,max}
    | DigitRun                        // \d+
    | Spaces(min: nat)                // \s* (min 0) or \s+ (min 1)
    | Letters                         // [a-z]*
    | OptSpacedAlt(words: seq<string>) // (\s*(w1|w2|...))?
    | Boundary                        // \b
    | WordsThen(words: seq<string>)   // (\w+\s*)*(w1|w2|...)

  /** Top-level alternatives `a1|a2|...`, and whether `re.IGNORECASE` is set. */
  datatype Pattern = Pattern(alts: seq<seq<Tok>>, caseless: bool)

  predicate CharIs(c: char, p: char, caseless: bool) {
    if caseless then LowerChar(c) == LowerChar(p) else c == p
  }

  predicate InSet(c: char, cs: CharSet, caseless: bool) {
    match cs
    case DigitSet => IsDigit(c)
    case SpaceSet => IsSpace(c)
    case LowerAsciiSet => ('a' <= c <= 'z') || (caseless && 'A' <= c <= 'Z')
    case WordOrSpaceSet => IsWordChar(c) || IsSpace(c)
  }

  /** Length of the run of `cs` characters starting at `i`. */
  function Span(s: string, i: nat, cs: CharSet, caseless: bool): (n: nat)
    requires i <= |s|
    ensures i + n <= |s|
    ensures forall k :: i <= k < i + n ==> InSet(s[k], cs, caseless)
    ensures i + n < |s| ==> !InSet(s[i + n], cs, caseless)
    decreases |s| - i
  {
    if i < |s| && InSet(s[i], cs, caseless) then 1 + Span(s, i + 1, cs, caseless) else 0
  }

  /** The word `w` occurs at `i`. */
  predicate WordAt(s: string, i: nat, w: string, caseless: bool) {
    i + |w| <= |s| && forall k :: 0 <= k < |w| ==> CharIs(s[i + k], w[k], caseless)
  }

  /** End of the first word of `ws` that occurs at `i`. */
  function FirstWord(s: string, i: nat, ws: seq<string>, caseless: bool): (r: Option<nat>)
    ensures r.Some? ==> i <= r.value <= |s|
    decreases |ws|
  {
    if ws == [] then None
    else if WordAt(s, i, ws[0], caseless) then Some(i + |ws[0]|)
    else FirstWord(s, i, ws[1..], caseless)
  }

  /** The alternation picks the first alternative that occurs, and fails only
      when none occurs. */
  lemma {:induction false} FirstWordIsFirst(s: string, i: nat, ws: seq<string>, caseless: bool)
    ensures FirstWord(s, i, ws, caseless).None? <==> forall k :: 0 <= k < |ws| ==> !WordAt(s, i, ws[k], caseless)
    ensures FirstWord(s, i, ws, caseless).Some? ==>
              exists k :: 0 <= k < |ws| && WordAt(s, i, ws[k], caseless)
                          && FirstWord(s, i, ws, caseless).value == i + |ws[k]|
                          && forall k' :: 0 <= k' < k ==> !WordAt(s, i, ws[k'], caseless)
    decreases |ws|
  {
    if ws != [] && !WordAt(s, i, ws[0], caseless) {
      FirstWordIsFirst(s, i, ws[1..], caseless);
      assert forall k :: 1 <= k < |ws| ==> ws[k] == ws[1..][k - 1];
      if FirstWord(s, i, ws, caseless).Some? {
        var k :| 0 <= k < |ws[1..]| && WordAt(s, i, ws[1..][k], caseless)
                 && FirstWord(s, i, ws, caseless).value == i + |ws[1..][k]|
                 && forall k' :: 0 <= k' < k ==> !WordAt(s, i, ws[1..][k'], caseless);
        assert WordAt(s, i, ws[k + 1], caseless);
      }
    } else if ws != [] {
      assert WordAt(s, i, ws[0], caseless);
    }
  }

  /** `\b`: exactly one of the characters around `i` is a word character. */
  predicate IsBoundary(s: string, i: nat)
    requires i <= |s|
  {
    (i > 0 && IsWordChar(s[i - 1])) != (i < |s| && IsWordChar(s[i]))
  }

  /** The positions `(\w+\s*)*` can stop at, starting from `i`: `i` itself, and
      when `s[i]` is a word character every position up to the end of the run
      of word and whitespace characters. */
  function FillerTop(s: string, i: nat): (top: nat)
    requires i <= |s|
    ensures i <= top <= |s|
  {
    if i < |s| && IsWordChar(s[i]) then i + Span(s, i, WordOrSpaceSet, false) else i
  }

  /** The last position in `[i, p]` at which one of `ws` occurs. Python's
      backtracking explores the repetition greedily, so it tries the final
      alternation at the reachable positions from the rightmost down and stops
      at the first success. */
  function LastWordPos(s: string, i: nat, p: nat, ws: seq<string>, caseless: bool): (q: Option<nat>)
    requires i <= p <= |s|
    ensures q.Some? ==> i <= q.value <= p && FirstWord(s, q.value, ws, caseless).Some?
    ensures forall q' :: i <= q' <= p && (q.None? || q.value < q') ==> FirstWord(s, q', ws, caseless).None?
    decreases p - i
  {
    if FirstWord(s, p, ws, caseless).Some? then Some(p)
    else if p == i then None
    else LastWordPos(s, i, p - 1, ws, caseless)
  }

  /** Where token `t` ends when it starts at `i`, or `None` if it fails. */
  function MatchTok(s: string, i: nat, t: Tok, caseless: bool): (r: Option<nat>)
    requires i <= |s|
    ensures r.Some? ==> i <= r.value <= |s|
  {
    match t
    case Lit(w) => if WordAt(s, i, w, caseless) then Some(i + |w|) else None
    case Alt(ws) => FirstWord(s, i, ws, caseless)
    case Class(cs) =>
      if i < |s| && (if caseless then LowerChar(s[i]) in Lower(cs) else s[i] in cs)
      then Some(i + 1) else None
    case Digits(lo, hi) =>
      var n := Span(s, i, DigitSet, caseless);
      if n < lo then None else Some(i + (if n <= hi then n else hi))
    case DigitRun =>
      var n := Span(s, i, DigitSet, caseless);
      if n == 0 then None else Some(i + n)
    case Spaces(lo) =>
      var n := Span(s, i, SpaceSet, caseless);
      if n < lo then None else Some(i + n)
    case Letters => Some(i + Span(s, i, LowerAsciiSet, caseless))
    case OptSpacedAlt(ws) =>
      var after := FirstWord(s, i + Span(s, i, SpaceSet, caseless), ws, caseless);
      if after.Some? then after else Some(i)
    case Boundary => if IsBoundary(s, i) then Some(i) else None
    case WordsThen(ws) =>
      match LastWordPos(s, i, FillerTop(s, i), ws, caseless)
      case None => None
      case Some(q) => FirstWord(s, q, ws, caseless)
  }

  /** Where the token sequence `ts` ends when it starts at `i`. */
  function MatchSeq(s: string, i: nat, ts: seq<Tok>, caseless: bool): (r: Option<nat>)
    requires i <= |s|
    ensures r.Some? ==> i <= r.value <= |s|
    decreases |ts|
  {
    if ts == [] then Some(i)
    else match MatchTok(s, i, ts[0], caseless)
      case None => None
      case Some(j) => MatchSeq(s, j, ts[1..], caseless)
  }

  /** End of the match of `pat` at `i`: the first alternative that matches. */
  function MatchAt(s: string, i: nat, pat: Pattern): (r: Option<nat>)
    requires i <= |s|
    ensures r.Some? ==> i <= r.value <= |s|
  {
    AltsAt(s, i, pat.alts, pat.caseless)
  }

  function AltsAt(s: string, i: nat, alts: seq<seq<Tok>>, caseless: bool): (r: Option<nat>)
    requires i <= |s|
    ensures r.Some? ==> i <= r.value <= |s|
    decreases |alts|
  {
    if alts == [] then None
    else
      var r := MatchSeq(s, i, alts[0], caseless);
      if r.Some? then r else AltsAt(s, i, alts[1..], caseless)
  }

  /** A match found by `re.search`: its start and end. */
  datatype Found = Found(start: nat, end: nat)

  /** `re.search` from position `i`: the leftmost position where the pattern
      matches. */
  function SearchFrom(s: string, i: nat, pat: Pattern): (r: Option<Found>)
    requires i <= |s|
    ensures r.Some? ==> i <= r.value.start <= r.value.end <= |s|
                        && MatchAt(s, r.value.start, pat) == Some(r.value.end)
    ensures forall k :: i <= k <= |s| && (r.None? || k < r.value.start)
                        ==> MatchAt(s, k, pat).None?
    decreases |s| - i
  {
    match MatchAt(s, i, pat)
    case Some(j) => Some(Found(i, j))
    case None => if i == |s| then None else SearchFrom(s, i + 1, pat)
  }

  function Search(s: string, pat: Pattern): (r: Option<Found>)
    ensures r.Some? ==> r.value.start <= r.value.end <= |s|
                        && MatchAt(s, r.value.start, pat) == Some(r.value.end)
    ensures forall k :: 0 <= k <= |s| && (r.None? || k < r.value.start)
                        ==> MatchAt(s, k, pat).None?
  {
    SearchFrom(s, 0, pat)
  }

  /** A non-empty match of `pat` starts at `i`. */
  predicate Hit(s: string, i: nat, pat: Pattern)
    requires i <= |s|
  {
    MatchAt(s, i, pat).Some? && MatchAt(s, i, pat).value > i
  }

  /** `re.sub(pat, "", s[i..])`: scanning from the left, every match is cut out
      and scanning resumes at its end. An empty match cuts nothing. */
  function DeleteFrom(s: string, i: nat, pat: Pattern): (r: string)
    requires i <= |s|
    ensures |r| <= |s| - i
    ensures (forall k :: i <= k < |s| ==> !Hit(s, k, pat)) ==> r == s[i..]
    decreases |s| - i
  {
    if i == |s| then []
    else if Hit(s, i, pat) then DeleteFrom(s, MatchAt(s, i, pat).value, pat)
    else [s[i]] + DeleteFrom(s, i + 1, pat)
  }

  function DeleteAll(s: string, pat: Pattern): (r: string)
    ensures |r| <= |s|
    ensures (forall k :: 0 <= k < |s| ==> !Hit(s, k, pat)) ==> r == s
  {
    DeleteFrom(s, 0, pat)
  }

  /** Applies `re.sub(p, "", .)` for each pattern of `ps` in turn. */
  function DeleteEach(s: string, ps: seq<Pattern>): (r: string)
    ensures |r| <= |s|
    decreases |ps|
  {
    if ps == [] then s else DeleteEach(DeleteAll(s, ps[0]), ps[1..])
  }

  // ---- The patterns of the repository ----

  /** `\d{1,2}[/-]\d{1,2}[/-]\d{2,4}`: a day-first or month-first date. */
  const ShortDate: seq<Tok> := [Digits(1, 2), Class("/-"), Digits(1, 2), Class("/-"), Digits(2, 4)]

  /** `\d{4}[/-]\d{1,2}[/-]\d{1,2}`: a year-first date. */
  const LongDate: seq<Tok> := [Digits(4, 4), Class("/-"), Digits(1, 2), Class("/-"), Digits(1, 2)]

  /** The suffixes removed to form a base series name: a whitespace run
      followed by a date, `#n`, `(n)` or `hh:mm`. */
  const SuffixPattern := Pattern([
    [Spaces(1)] + ShortDate,
    [Spaces(1)] + LongDate,
    [Spaces(1), Lit("#"), DigitRun],
    [Spaces(1), Lit("("), DigitRun, Lit(")")],
    [Spaces(1), Digits(1, 2), Lit(":"), Digits(2, 2)]
  ], false)

  const Months: seq<string> := ["jan", "feb", "mar", "apr", "may", "jun", "jul", "aug", "sep", "oct", "nov", "dec"]

  /** The date and time patterns removed, case-insensitively and in this
      order, from a title that names no series. */
  const DateTimePatterns: seq<Pattern> := [
    Pattern([ShortDate], true),
    Pattern([LongDate], true),
    Pattern([[Digits(1, 2), Lit(":"), Digits(2, 2), OptSpacedAlt(["am", "pm"])]], true),
    Pattern([[Alt(Months), Letters, Spaces(1), Digits(1, 2)]], true),
    Pattern([[Lit("#"), DigitRun]], true),
    Pattern([[Lit("("), DigitRun, Lit(")")]], true),
    Pattern([[Lit("week"), Spaces(1), DigitRun]], true),
    Pattern([[Lit("q"), Class("1234"), Spaces(1), Digits(4, 4)]], true)
  ]

  /** The cadence a known series phrase suggests. */
  datatype Cadence = Daily | Weekly | Biweekly | Monthly | Adhoc

  /** The known series phrases, tried in this order on the lower-cased title,
      with the cadence each one suggests. */
  const SeriesPatterns: seq<(Pattern, Cadence)> := [
    (Pattern([[Lit("daily"), Spaces(1), Alt(["standup", "sync", "scrum", "meeting"])]], false), Daily),
    (Pattern([[Lit("weekly"), Spaces(1), WordsThen(["meeting", "sync", "review", "retro", "retrospective"])]], false), Weekly),
    (Pattern([[Alt(["bi-weekly", "biweekly"]), Spaces(1), WordsThen(["meeting", "sync", "review"])]], false), Biweekly),
    (Pattern([[Lit("monthly"), Spaces(1), WordsThen(["meeting", "sync", "review", "all-hands"])]], false), Monthly),
    (Pattern([[Lit("1:1")], [Lit("one-on-one")], [Lit("1-on-1")]], false), Weekly),
    (Pattern([[Lit("sprint"), Spaces(1), Alt(["planning", "review", "retro", "retrospective"])]], false), Biweekly),
    (Pattern([[Alt(["team", "dept", "department"]), Spaces(1), Alt(["meeting", "sync", "standup"])]], false), Weekly),
    (Pattern([[Alt(["product", "design", "engineering"]), Spaces(1), Alt(["review", "sync", "meeting"])]], false), Weekly),
    (Pattern([[Lit("all-hands")], [Lit("company"), Spaces(1), Lit("meeting")], [Lit("town"), Spaces(1), Lit("hall")]], false), Monthly)
  ]

  /** The numbering removed from calendar titles before they are sent as a
      series name, in this order: dates, `#n`, `№n` and standalone integers. */
  const CalendarNumberPatterns: seq<Pattern> := [
    Pattern([ShortDate], false),
    Pattern([LongDate], false),
    Pattern([[Lit("#"), DigitRun]], false),
    Pattern([[Lit("\U{2116}"), DigitRun]], false),
    Pattern([[Boundary, DigitRun, Boundary]], false)
  ]
}
