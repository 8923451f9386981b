/** Series names and series keys of titles from the analyzer's own test
    suite, worked out on the model. */
module AnalyzerExamples {
  import opened Text
  import opened Patterns
  import opened MeetingAnalyzer

  /** A text without the opening character has no enclosed group. */
  lemma {:induction false} EnclosedAbsent(s: string, p: nat, open: char, close: char)
    requires p <= |s|
    requires forall k :: p <= k < |s| ==> s[k] != open
    ensures EnclosedFrom(s, p, open, close).None?
    decreases |s| - p
  {
    if p < |s| {
      EnclosedAbsent(s, p + 1, open, close);
    }
  }

  /** Without a line break, the lazy group ends at the first delimiter. */
  lemma LazyAt(s: string, g: nat, q0: nat, q: nat, delim: char)
    requires g < q0 <= q < |s| && s[q] == delim
    requires forall k :: g <= k < q ==> s[k] != '\n'
    requires forall k :: q0 <= k < q ==> s[k] != delim
    ensures LazyGroupEnd(s, g, q0, delim, false) == Some(q)
  {
    assert EndsGroup(s, g, q, delim, false);
  }

  /** An explicit identifier, trimmed, is the series name. */
  lemma ExplicitName(title: string)
    requires ExplicitIdentifier(title).Some?
    ensures ExtractSeriesName(title) == Some(Strip(ExplicitIdentifier(title).value))
  {
  }

  lemma BracketEnd(s: string)
    requires s == "[Project Alpha] Status Update"
    ensures LazyGroupEnd(s, 1, 2, ']', false) == Some(14)
  {
    assert s[0] == '[' && s[14] == ']';
    assert forall k :: 1 <= k < 14 ==> s[k] != '\n' && s[k] != ']';
    LazyAt(s, 1, 2, 14, ']');
  }

  lemma BracketText(s: string)
    requires s == "[Project Alpha] Status Update"
    ensures s[1..14] == "Project Alpha"
  {
    var g := "Project Alpha";
    assert forall k :: 0 <= k < 13 ==> s[1 + k] == g[k];
  }

  lemma EnclosedAt(s: string, open: char, close: char, q: nat)
    requires 1 < q < |s| && s[0] == open && LazyGroupEnd(s, 1, 2, close, false) == Some(q)
    ensures Enclosed(s, open, close) == Some(s[1..q])
  {
  }

  /** "[Project Alpha] Status Update" is in the series "Project Alpha". */
  lemma BracketExample(s: string)
    requires s == "[Project Alpha] Status Update"
    ensures ExtractSeriesName(s) == Some("Project Alpha")
  {
    BracketEnd(s);
    BracketText(s);
    EnclosedAt(s, '[', ']', 14);
    ExplicitName(s);
    StripNoEdge("Project Alpha");
  }

  lemma ColonIdentifier(s: string)
    requires s == "Engineering Sync: Sprint 23"
    ensures ExplicitIdentifier(s) == Some("Engineering Sync")
  {
    EnclosedAbsent(s, 0, '[', ']');
    EnclosedAbsent(s, 0, '(', ')');
    LazyAt(s, 0, 1, 16, ':');
    assert s[..16] == "Engineering Sync";
  }

  /** "Engineering Sync: Sprint 23" is in the series "Engineering Sync". */
  lemma ColonExample(s: string)
    requires s == "Engineering Sync: Sprint 23"
    ensures ExtractSeriesName(s) == Some("Engineering Sync")
  {
    ColonIdentifier(s);
    ExplicitName(s);
    StripNoEdge("Engineering Sync");
  }

  // ---- Titles named by a known phrase ----

  /** A lead group needs its delimiter somewhere in the text. */
  lemma LeadAbsent(s: string, delim: char, spaced: bool)
    requires forall k :: 0 <= k < |s| ==> s[k] != delim
    ensures Lead(s, delim, spaced).None?
  {
    forall q | 0 < q <= |s| ensures !EndsGroup(s, 0, q, delim, spaced) {
    }
  }

  /** A title with none of the characters `[ ( : - |` has no explicit identifier. */
  lemma NoExplicit(s: string)
    requires forall k :: 0 <= k < |s| ==> s[k] !in "[(:-|"
    ensures ExplicitIdentifier(s).None?
  {
    EnclosedAbsent(s, 0, '[', ']');
    EnclosedAbsent(s, 0, '(', ')');
    LeadAbsent(s, ':', false);
    LeadAbsent(s, '-', true);
    LeadAbsent(s, '|', true);
  }

  lemma LowerIs(s: string, l: string)
    requires |s| == |l| && forall k :: 0 <= k < |s| ==> LowerChar(s[k]) == l[k]
    ensures Lower(s) == l
  {
  }

  /** A pattern of one three-token alternative matches where its tokens
      match one after another. */
  lemma ThreeTokens(s: string, i: nat, j: nat, k: nat, m: nat, pat: Pattern)
    requires i <= j <= k <= m <= |s| && |pat.alts| == 1 && |pat.alts[0]| == 3
    requires MatchTok(s, i, pat.alts[0][0], pat.caseless) == Some(j)
    requires MatchTok(s, j, pat.alts[0][1], pat.caseless) == Some(k)
    requires MatchTok(s, k, pat.alts[0][2], pat.caseless) == Some(m)
    ensures MatchAt(s, i, pat) == Some(m)
  {
    var ts := pat.alts[0];
    var c := pat.caseless;
    assert ts[1..][0] == ts[1] && ts[1..][1..][0] == ts[2] && ts[1..][1..][1..] == [];
    assert MatchSeq(s, m, ts[1..][1..][1..], c) == Some(m);
    assert MatchSeq(s, k, ts[1..][1..], c) == Some(m);
    assert MatchSeq(s, j, ts[1..], c) == Some(m);
    assert MatchSeq(s, i, ts, c) == Some(m);
    assert AltsAt(s, i, pat.alts[1..], c) == None;
  }

  /** A match at the very start is what `re.search` finds. */
  lemma FoundAtStart(s: string, pat: Pattern, m: nat)
    requires MatchAt(s, 0, pat) == Some(m)
    ensures Search(s, pat) == Some(Found(0, m))
  {
  }

  /** `daily standup` at the head of a text is the first phrase's match. */
  lemma DailyStandupFound(s: string)
    requires |s| >= 13 && s[..13] == "daily standup"
    ensures Search(s, SeriesPatterns[0].0) == Some(Found(0, 13))
  {
    var pat := SeriesPatterns[0].0;
    assert MatchTok(s, 0, pat.alts[0][0], false) == Some(5) by {
      assert WordAt(s, 0, "daily", false);
    }
    assert MatchTok(s, 5, pat.alts[0][1], false) == Some(6) by {
      assert s[5] == ' ' && s[6] == 's';
      assert Span(s, 6, SpaceSet, false) == 0;
    }
    assert MatchTok(s, 6, pat.alts[0][2], false) == Some(13) by {
      assert WordAt(s, 6, "standup", false);
    }
    ThreeTokens(s, 0, 5, 6, 13, pat);
    FoundAtStart(s, pat, 13);
  }

  lemma DailyStandupLower(s: string, l: string)
    requires s == "Daily Standup" && l == "daily standup"
    ensures Lower(s) == l && Strip(l) == l
  {
    LowerIs(s, l);
    StripNoEdge(l);
  }

  /** The undated test titles have no explicit identifier. */
  lemma TitlePlain(s: string)
    requires s == "Daily Standup" || s == "Weekly Team Meeting" || s == "weekly planning"
    ensures ExplicitIdentifier(s).None?
  {
    PlainNoExplicit(s);
  }

  /** The first phrase, when found, is the phrase. */
  lemma FirstPhrase(l: string, f: Found)
    requires Search(l, SeriesPatterns[0].0) == Some(f)
    ensures PhraseFrom(l, 0) == Some(f)
  {
  }

  /** "Daily Standup" is in the series "daily standup". */
  lemma DailyStandupExample(s: string)
    requires s == "Daily Standup"
    ensures ExtractSeriesName(s) == Some("daily standup")
  {
    var l := "daily standup";
    DailyStandupLower(s, l);
    TitlePlain(s);
    DailyStandupFound(l);
    FirstPhrase(l, Found(0, 13));
    WholePhraseName(s, l);
  }

  // ---- Patterns that cannot match a text ----

  /** `w` occurs nowhere in `s`: wherever its first character occurs, its
      second character does not follow. */
  predicate Absent(s: string, w: string) {
    w != [] && forall k :: 0 <= k < |s| && s[k] == w[0] ==> |w| >= 2 && (k + 1 == |s| || s[k + 1] != w[1])
  }

  predicate NoDigits(s: string) {
    forall k :: 0 <= k < |s| ==> !IsDigit(s[k])
  }

  /** Token `t` matches at no position of `s`. */
  predicate Blocked(s: string, t: Tok) {
    match t
    case Lit(w) => Absent(s, w)
    case Alt(ws) => forall w <- ws :: Absent(s, w)
    case Digits(lo, _) => lo >= 1 && NoDigits(s)
    case DigitRun => NoDigits(s)
    case _ => false
  }

  lemma AbsentNotAt(s: string, i: nat, w: string)
    requires Absent(s, w)
    ensures !WordAt(s, i, w, false)
  {
    if i + |w| <= |s| {
      if s[i] == w[0] {
        assert !CharIs(s[i + 1], w[1], false);
      } else {
        assert !CharIs(s[i + 0], w[0], false);
      }
    }
  }

  lemma BlockedTok(s: string, i: nat, t: Tok)
    requires i <= |s| && Blocked(s, t)
    ensures MatchTok(s, i, t, false).None?
  {
    match t
    case Lit(w) => AbsentNotAt(s, i, w);
    case Alt(ws) =>
      forall k | 0 <= k < |ws| ensures !WordAt(s, i, ws[k], false) {
        AbsentNotAt(s, i, ws[k]);
      }
      FirstWordIsFirst(s, i, ws, false);
    case Digits(lo, _) =>
    case DigitRun =>
  }

  /** An alternative whose first or second token is blocked never matches. */
  predicate AltBlocked(s: string, a: seq<Tok>) {
    (|a| >= 1 && Blocked(s, a[0])) || (|a| >= 2 && Blocked(s, a[1]))
  }

  lemma {:induction false} AltsBlocked(s: string, i: nat, alts: seq<seq<Tok>>)
    requires i <= |s| && forall a <- alts :: AltBlocked(s, a)
    ensures AltsAt(s, i, alts, false).None?
    decreases |alts|
  {
    if alts != [] {
      var a := alts[0];
      assert AltBlocked(s, a);
      if |a| >= 1 && Blocked(s, a[0]) {
        BlockedTok(s, i, a[0]);
        assert MatchSeq(s, i, a, false).None?;
      } else {
        match MatchTok(s, i, a[0], false)
        case None =>
        case Some(j) =>
          BlockedTok(s, j, a[1]);
          assert a[1..][0] == a[1];
          assert MatchSeq(s, j, a[1..], false).None?;
      }
      assert forall b <- alts[1..] :: b in alts;
      AltsBlocked(s, i, alts[1..]);
    }
  }

  /** A pattern whose every alternative is blocked matches nowhere. */
  lemma PatternBlocked(s: string, pat: Pattern)
    requires !pat.caseless && forall a <- pat.alts :: AltBlocked(s, a)
    ensures forall k :: 0 <= k <= |s| ==> MatchAt(s, k, pat).None?
    ensures Search(s, pat).None?
  {
    forall k | 0 <= k <= |s| ensures MatchAt(s, k, pat).None? {
      AltsBlocked(s, k, pat.alts);
    }
  }

  /** No word of `ws` starts at `q` when the character there starts none of them. */
  lemma FirstCharMiss(s: string, q: nat, ws: seq<string>, firsts: set<char>)
    requires forall k :: 0 <= k < |ws| ==> ws[k] != [] && ws[k][0] in firsts
    requires q < |s| ==> s[q] !in firsts
    ensures FirstWord(s, q, ws, false).None?
  {
    forall k | 0 <= k < |ws| ensures !WordAt(s, q, ws[k], false) {
      if q + |ws[k]| <= |s| {
        assert !CharIs(s[q + 0], ws[k][0], false);
      }
    }
    FirstWordIsFirst(s, q, ws, false);
  }

  // ---- "Weekly Team Meeting" ----

  const WeeklyWords: seq<string> := ["meeting", "sync", "review", "retro", "retrospective"]

  lemma WeeklyFirsts()
    ensures forall k :: 0 <= k < |WeeklyWords| ==> WeeklyWords[k] != [] && WeeklyWords[k][0] in {'m', 's', 'r'}
  {
  }

  lemma WeeklyTeamFiller(s: string)
    requires s == "weekly team meeting"
    ensures FillerTop(s, 7) == 19
  {
    var w := WordOrSpaceSet;
    assert Span(s, 19, w, false) == 0;
    assert Span(s, 18, w, false) == 1;
    assert Span(s, 17, w, false) == 2;
    assert Span(s, 16, w, false) == 3;
    assert Span(s, 15, w, false) == 4;
    assert Span(s, 14, w, false) == 5;
    assert Span(s, 13, w, false) == 6;
    assert Span(s, 12, w, false) == 7;
    assert Span(s, 11, w, false) == 8;
    assert Span(s, 10, w, false) == 9;
    assert Span(s, 9, w, false) == 10;
    assert Span(s, 8, w, false) == 11;
    assert Span(s, 7, w, false) == 12;
  }

  lemma WeeklyTeamMisses(s: string)
    requires s == "weekly team meeting"
    ensures forall q :: 13 <= q <= 19 ==> FirstWord(s, q, WeeklyWords, false).None?
  {
    var ws := WeeklyWords;
    var fs := {'m', 's', 'r'};
    WeeklyFirsts();
    FirstCharMiss(s, 19, ws, fs);
    FirstCharMiss(s, 18, ws, fs);
    FirstCharMiss(s, 17, ws, fs);
    FirstCharMiss(s, 16, ws, fs);
    FirstCharMiss(s, 15, ws, fs);
    FirstCharMiss(s, 14, ws, fs);
    FirstCharMiss(s, 13, ws, fs);
  }

  /** The last word position is the last one in the range at which a word
      starts. */
  lemma {:induction false} LastAt(s: string, i: nat, p: nat, q: nat, ws: seq<string>)
    requires i <= q <= p <= |s| && FirstWord(s, q, ws, false).Some?
    requires forall q' :: q < q' <= p ==> FirstWord(s, q', ws, false).None?
    ensures LastWordPos(s, i, p, ws, false) == Some(q)
    decreases p - q
  {
    if p > q {
      LastAt(s, i, p - 1, q, ws);
    }
  }

  lemma WeeklyTeamLast(s: string)
    requires s == "weekly team meeting"
    ensures FirstWord(s, 12, WeeklyWords, false) == Some(19)
    ensures LastWordPos(s, 7, 19, WeeklyWords, false) == Some(12)
  {
    WeeklyTeamMisses(s);
    assert WordAt(s, 12, "meeting", false);
    LastAt(s, 7, 19, 12, WeeklyWords);
  }

  /** `(\w+\s*)*(w1|...)` ends where the last reachable word ends. */
  lemma WordsThenEnds(s: string, i: nat, top: nat, q: nat, e: nat, ws: seq<string>)
    requires i <= top <= |s| && FillerTop(s, i) == top
    requires LastWordPos(s, i, top, ws, false) == Some(q) && FirstWord(s, q, ws, false) == Some(e)
    ensures MatchTok(s, i, WordsThen(ws), false) == Some(e)
  {
  }

  lemma WeeklyTeamHead(s: string)
    requires s == "weekly team meeting"
    ensures MatchTok(s, 0, Lit("weekly"), false) == Some(6)
    ensures MatchTok(s, 6, Spaces(1), false) == Some(7)
  {
    assert WordAt(s, 0, "weekly", false);
    assert s[6] == ' ' && s[7] == 't';
    assert Span(s, 7, SpaceSet, false) == 0;
  }

  lemma WeeklyTeamFound(s: string)
    requires s == "weekly team meeting"
    ensures Search(s, SeriesPatterns[1].0) == Some(Found(0, 19))
  {
    var pat := SeriesPatterns[1].0;
    assert pat.alts[0] == [Lit("weekly"), Spaces(1), WordsThen(WeeklyWords)];
    WeeklyTeamHead(s);
    WeeklyTeamFiller(s);
    WeeklyTeamLast(s);
    WordsThenEnds(s, 7, 19, 12, 19, WeeklyWords);
    ThreeTokens(s, 0, 6, 7, 19, pat);
    FoundAtStart(s, pat, 19);
  }

  /** A title of letters and spaces has no explicit identifier. */
  lemma PlainNoExplicit(s: string)
    requires forall k :: 0 <= k < |s| ==> IsAsciiLetter(s[k]) || IsDigit(s[k]) || s[k] == ' ' || s[k] == '/'
    ensures ExplicitIdentifier(s).None?
  {
    NoExplicit(s);
  }

  lemma WeeklyTeamLower(s: string, l: string)
    requires s == "Weekly Team Meeting" && l == "weekly team meeting"
    ensures Lower(s) == l && Strip(l) == l
  {
    LowerIs(s, l);
    StripNoEdge(l);
  }

  lemma WeeklyTeamNoDaily(l: string)
    requires l == "weekly team meeting"
    ensures Search(l, SeriesPatterns[0].0).None?
  {
    assert Absent(l, "daily");
    PatternBlocked(l, SeriesPatterns[0].0);
  }

  /** When the first phrase is absent and the second found, the second's
      match is the phrase. */
  lemma SecondPhrase(l: string, f: Found)
    requires Search(l, SeriesPatterns[0].0).None? && Search(l, SeriesPatterns[1].0) == Some(f)
    ensures PhraseFrom(l, 0) == Some(f)
  {
  }

  /** The name of a title whose lower-case form `l` is trimmed, has no
      explicit identifier, and whose phrase match covers all of `l`. */
  lemma WholePhraseName(s: string, l: string)
    requires Lower(s) == l && Strip(l) == l && ExplicitIdentifier(s).None?
    requires PhraseFrom(l, 0) == Some(Found(0, |l|))
    ensures ExtractSeriesName(s) == Some(l)
  {
    assert l[0..|l|] == l;
    PhraseName(s, Found(0, |l|));
  }

  /** "Weekly Team Meeting" is in the series "weekly team meeting". */
  lemma WeeklyTeamExample(s: string)
    requires s == "Weekly Team Meeting"
    ensures ExtractSeriesName(s) == Some("weekly team meeting")
  {
    var l := "weekly team meeting";
    WeeklyTeamLower(s, l);
    TitlePlain(s);
    WeeklyTeamNoDaily(l);
    WeeklyTeamFound(l);
    SecondPhrase(l, Found(0, 19));
    WholePhraseName(s, l);
  }

  // ---- Series keys: "Daily Standup 10/15/2023", "Daily Standup 10/16/2023", "Weekly Planning" ----

  /** A text of lower-case ASCII letters and single inner spaces is a
      normalised key. */
  lemma LowerWordsNormal(k: string)
    requires forall i :: 0 <= i < |k| ==> ('a' <= k[i] <= 'z') || k[i] == ' '
    requires forall i :: 0 <= i < |k| - 1 ==> k[i] != ' ' || k[i + 1] != ' '
    requires k != [] ==> k[0] != ' ' && k[|k| - 1] != ' '
    ensures NormalKey(k)
  {
    forall c | c in k ensures (IsWordChar(c) || c == ' ' || c == '-') && LowerChar(c) == c {
      var i :| 0 <= i < |k| && k[i] == c;
    }
  }

  lemma StandupNormal()
    ensures NormalizeSeriesKey("daily standup") == "daily standup"
  {
    LowerWordsNormal("daily standup");
    NormalKeyFixed("daily standup");
  }

  /** A trimmed, lower-case title that starts with `daily standup` and has no
      explicit identifier has the key `daily standup`. */
  lemma DailyStandupKey(title: string, t: string)
    requires Lower(title) == t && Lower(t) == t && Strip(t) == t && ExplicitIdentifier(t).None?
    requires |t| >= 13 && t[..13] == "daily standup"
    ensures ExtractSeriesKey(title) == "daily standup"
  {
    DailyStandupFound(t);
    assert PhraseFrom(t, 0) == Some(Found(0, 13));
    PhraseName(t, Found(0, 13));
    assert t[0..13] == "daily standup";
    StripNoEdge("daily standup");
    StandupNormal();
  }

  lemma DatedStandupLower(s: string, t: string)
    requires (s == "Daily Standup 10/15/2023" && t == "daily standup 10/15/2023")
             || (s == "Daily Standup 10/16/2023" && t == "daily standup 10/16/2023")
    ensures Lower(s) == t
  {
    LowerIs(s, t);
  }

  lemma DatedStandupFixed(t: string)
    requires t == "daily standup 10/15/2023" || t == "daily standup 10/16/2023"
    ensures Lower(t) == t && Strip(t) == t
  {
    LowerIs(t, t);
    StripNoEdge(t);
  }

  lemma DatedStandupPlain(t: string)
    requires t == "daily standup 10/15/2023" || t == "daily standup 10/16/2023"
    ensures ExplicitIdentifier(t).None? && t[..13] == "daily standup"
  {
    PlainNoExplicit(t);
  }

  /** The characters of `weekly planning`. */
  const PlanningChars: set<char> := {'w', 'e', 'k', 'l', 'y', ' ', 'p', 'a', 'n', 'i', 'g'}

  lemma PlanningLower(s: string, t: string)
    requires s == "Weekly Planning" && t == "weekly planning"
    ensures Lower(s) == t
  {
    LowerIs(s, t);
  }

  lemma PlanningFixed(t: string)
    requires t == "weekly planning"
    ensures Lower(t) == t && Strip(t) == t
  {
    LowerIs(t, t);
    StripNoEdge(t);
  }

  lemma PlanningNormal(t: string)
    requires t == "weekly planning"
    ensures NormalKey(t)
  {
    LowerWordsNormal(t);
  }

  lemma PlanningCharSet(t: string)
    requires t == "weekly planning"
    ensures forall k :: 0 <= k < |t| ==> t[k] in PlanningChars
  {
  }

  /** A word whose first character does not occur in `s` is absent from it. */
  lemma AbsentByFirst(s: string, w: string, cs: set<char>)
    requires forall k :: 0 <= k < |s| ==> s[k] in cs
    requires w != [] && w[0] !in cs
    ensures Absent(s, w)
  {
  }

  /** The phrase words that start with a letter `weekly planning` lacks. */
  lemma ForeignAbsentA(t: string)
    requires forall k :: 0 <= k < |t| ==> t[k] in PlanningChars
    ensures Absent(t, "daily")
    ensures Absent(t, "bi-weekly")
    ensures Absent(t, "biweekly")
    ensures Absent(t, "monthly")
    ensures Absent(t, "1:1")
    ensures Absent(t, "one-on-one")
    ensures Absent(t, "1-on-1")
    ensures Absent(t, "sprint")
  {
    AbsentByFirst(t, "daily", PlanningChars);
    AbsentByFirst(t, "bi-weekly", PlanningChars);
    AbsentByFirst(t, "biweekly", PlanningChars);
    AbsentByFirst(t, "monthly", PlanningChars);
    AbsentByFirst(t, "1:1", PlanningChars);
    AbsentByFirst(t, "one-on-one", PlanningChars);
    AbsentByFirst(t, "1-on-1", PlanningChars);
    AbsentByFirst(t, "sprint", PlanningChars);
  }

  lemma ForeignAbsentB(t: string)
    requires forall k :: 0 <= k < |t| ==> t[k] in PlanningChars
    ensures Absent(t, "team")
    ensures Absent(t, "dept")
    ensures Absent(t, "department")
    ensures Absent(t, "design")
    ensures Absent(t, "company")
    ensures Absent(t, "town")
    ensures Absent(t, "#")
    ensures Absent(t, "(")
  {
    AbsentByFirst(t, "team", PlanningChars);
    AbsentByFirst(t, "dept", PlanningChars);
    AbsentByFirst(t, "department", PlanningChars);
    AbsentByFirst(t, "design", PlanningChars);
    AbsentByFirst(t, "company", PlanningChars);
    AbsentByFirst(t, "town", PlanningChars);
    AbsentByFirst(t, "#", PlanningChars);
    AbsentByFirst(t, "(", PlanningChars);
  }

  lemma PlanningPairs(t: string)
    requires t == "weekly planning"
    ensures Absent(t, "product") && Absent(t, "engineering") && Absent(t, "all-hands")
  {
  }

  lemma PlanningNoDigits(t: string)
    requires forall k :: 0 <= k < |t| ==> t[k] in PlanningChars
    ensures NoDigits(t)
  {
  }

  lemma Blocked0(t: string)
    requires Absent(t, "daily")
    ensures Search(t, SeriesPatterns[0].0).None?
  {
    PatternBlocked(t, SeriesPatterns[0].0);
  }

  lemma Blocked2(t: string)
    requires Absent(t, "bi-weekly") && Absent(t, "biweekly")
    ensures Search(t, SeriesPatterns[2].0).None?
  {
    PatternBlocked(t, SeriesPatterns[2].0);
  }

  lemma Blocked3(t: string)
    requires Absent(t, "monthly")
    ensures Search(t, SeriesPatterns[3].0).None?
  {
    PatternBlocked(t, SeriesPatterns[3].0);
  }

  lemma Blocked4(t: string)
    requires Absent(t, "1:1") && Absent(t, "one-on-one") && Absent(t, "1-on-1")
    ensures Search(t, SeriesPatterns[4].0).None?
  {
    PatternBlocked(t, SeriesPatterns[4].0);
  }

  lemma Blocked5(t: string)
    requires Absent(t, "sprint")
    ensures Search(t, SeriesPatterns[5].0).None?
  {
    PatternBlocked(t, SeriesPatterns[5].0);
  }

  lemma Blocked6(t: string)
    requires Absent(t, "team") && Absent(t, "dept") && Absent(t, "department")
    ensures Search(t, SeriesPatterns[6].0).None?
  {
    PatternBlocked(t, SeriesPatterns[6].0);
  }

  lemma Blocked7(t: string)
    requires Absent(t, "product") && Absent(t, "design") && Absent(t, "engineering")
    ensures Search(t, SeriesPatterns[7].0).None?
  {
    PatternBlocked(t, SeriesPatterns[7].0);
  }

  lemma Blocked8(t: string)
    requires Absent(t, "all-hands") && Absent(t, "company") && Absent(t, "town")
    ensures Search(t, SeriesPatterns[8].0).None?
  {
    PatternBlocked(t, SeriesPatterns[8].0);
  }

  /** After `weekly planning`'s head, no word the weekly phrase ends with
      follows. */
  lemma PlanningNoWeeklyWord(t: string)
    requires t == "weekly planning"
    ensures LastWordPos(t, 7, FillerTop(t, 7), WeeklyWords, false).None?
  {
    var fs := {'m', 's', 'r'};
    WeeklyFirsts();
    forall q | 7 <= q <= |t| ensures FirstWord(t, q, WeeklyWords, false).None? {
      FirstCharMiss(t, q, WeeklyWords, fs);
    }
  }

  lemma PlanningHead(t: string)
    requires t == "weekly planning"
    ensures MatchTok(t, 0, Lit("weekly"), false) == Some(6)
    ensures MatchTok(t, 6, Spaces(1), false) == Some(7)
    ensures forall k :: 0 < k < |t| ==> t[k] != 'w'
  {
    assert WordAt(t, 0, "weekly", false);
    assert t[6] == ' ' && t[7] == 'p';
    assert Span(t, 7, SpaceSet, false) == 0;
  }

  /** A one-alternative pattern fails where its first token fails. */
  lemma FirstTokenFails(s: string, i: nat, pat: Pattern)
    requires i <= |s| && |pat.alts| == 1 && |pat.alts[0]| >= 1
    requires MatchTok(s, i, pat.alts[0][0], pat.caseless).None?
    ensures MatchAt(s, i, pat).None?
  {
    assert MatchSeq(s, i, pat.alts[0], pat.caseless).None?;
    assert AltsAt(s, i, pat.alts[1..], pat.caseless) == None;
  }

  /** A one-alternative pattern of three tokens fails where its first two
      tokens match and the third fails. */
  lemma ThirdTokenFails(s: string, i: nat, j: nat, k: nat, pat: Pattern)
    requires i <= j <= k <= |s| && |pat.alts| == 1 && |pat.alts[0]| == 3
    requires MatchTok(s, i, pat.alts[0][0], pat.caseless) == Some(j)
    requires MatchTok(s, j, pat.alts[0][1], pat.caseless) == Some(k)
    requires MatchTok(s, k, pat.alts[0][2], pat.caseless).None?
    ensures MatchAt(s, i, pat).None?
  {
    var ts := pat.alts[0];
    var c := pat.caseless;
    assert ts[1..][0] == ts[1] && ts[1..][1..][0] == ts[2];
    assert MatchSeq(s, k, ts[1..][1..], c).None?;
    assert MatchSeq(s, j, ts[1..], c).None?;
    assert MatchSeq(s, i, ts, c).None?;
    assert AltsAt(s, i, pat.alts[1..], c) == None;
  }

  lemma WordsThenNone(s: string, i: nat, ws: seq<string>)
    requires i <= |s| && LastWordPos(s, i, FillerTop(s, i), ws, false).None?
    ensures MatchTok(s, i, WordsThen(ws), false).None?
  {
  }

  lemma LitFails(s: string, k: nat, w: string)
    requires k <= |s| && w != [] && (k < |s| ==> s[k] != w[0])
    ensures MatchTok(s, k, Lit(w), false).None?
  {
    if k + |w| <= |s| {
      assert !CharIs(s[k + 0], w[0], false);
    }
  }

  /** In `t`, the head matches at the start only, followed by whitespace
      and then none of the words `ws`. */
  predicate HeadWithoutWord(t: string, head: string, ws: seq<string>) {
    && head != [] && |t| >= |head| + 1 && (forall k :: 0 < k < |t| ==> t[k] != head[0])
    && MatchTok(t, 0, Lit(head), false) == Some(|head|)
    && MatchTok(t, |head|, Spaces(1), false) == Some(|head| + 1)
    && LastWordPos(t, |head| + 1, FillerTop(t, |head| + 1), ws, false).None?
  }

  /** A phrase `head \s+ (\w+\s*)*(w1|...)` then fails everywhere. */
  lemma HeadOnlyAtStart(t: string, pat: Pattern, head: string, ws: seq<string>)
    requires pat.alts == [[Lit(head), Spaces(1), WordsThen(ws)]] && !pat.caseless
    requires HeadWithoutWord(t, head, ws)
    ensures Search(t, pat).None?
  {
    WordsThenNone(t, |head| + 1, ws);
    ThirdTokenFails(t, 0, |head|, |head| + 1, pat);
    forall k | 0 < k <= |t| ensures MatchAt(t, k, pat).None? {
      LitFails(t, k, head);
      FirstTokenFails(t, k, pat);
    }
  }

  lemma WeeklyFails(t: string)
    requires HeadWithoutWord(t, "weekly", WeeklyWords)
    ensures Search(t, SeriesPatterns[1].0).None?
  {
    HeadOnlyAtStart(t, SeriesPatterns[1].0, "weekly", WeeklyWords);
  }

  lemma PlanningWeekly(t: string)
    requires t == "weekly planning"
    ensures HeadWithoutWord(t, "weekly", WeeklyWords)
  {
    PlanningHead(t);
    PlanningNoWeeklyWord(t);
  }

  /** `weekly planning` holds none of the known series phrases. */
  lemma PlanningNoPhrase(t: string)
    requires t == "weekly planning"
    ensures PhraseFrom(t, 0).None?
  {
    PlanningCharSet(t);
    ForeignAbsentA(t);
    ForeignAbsentB(t);
    PlanningPairs(t);
    Blocked0(t);
    Blocked2(t);
    Blocked3(t);
    Blocked4(t);
    Blocked5(t);
    Blocked6(t);
    Blocked7(t);
    Blocked8(t);
    PlanningWeekly(t);
    WeeklyFails(t);
    assert |SeriesPatterns| == 9;
  }

  /** A text without digits, `#` and `(` has no date or number suffix to cut. */
  lemma NoSuffix(t: string)
    requires NoDigits(t) && Absent(t, "#") && Absent(t, "(") && NoEdgeSpace(t)
    ensures BaseName(t) == t
  {
    PatternBlocked(t, SuffixPattern);
    forall k | 0 <= k < |t| ensures !Hit(t, k, SuffixPattern) {
    }
    StripNoEdge(t);
  }

  lemma PlanningBase(t: string)
    requires t == "weekly planning"
    ensures BaseName(t) == t
  {
    PlanningCharSet(t);
    ForeignAbsentB(t);
    PlanningNoDigits(t);
    assert NoEdgeSpace(t);
    NoSuffix(t);
  }

  /** A title without explicit identifier or known phrase, whose trimmed
      lower-case form keeps its suffix-free text of more than five
      characters, has that text as its key when it is already normal. */
  lemma BaseNameKey(title: string, t: string)
    requires Lower(title) == t && Lower(t) == t && Strip(t) == t && ExplicitIdentifier(t).None?
    requires PhraseFrom(t, 0).None? && BaseName(t) == t && |t| > 5 && NormalKey(t)
    ensures ExtractSeriesKey(title) == t
  {
    NormalKeyFixed(t);
  }

  /** Two dated occurrences of the daily standup share a series key, and the
      weekly planning has another. */
  lemma SeriesKeyExample(a: string, b: string, c: string)
    requires a == "Daily Standup 10/15/2023" && b == "Daily Standup 10/16/2023" && c == "Weekly Planning"
    ensures ExtractSeriesKey(a) == ExtractSeriesKey(b) == "daily standup"
    ensures ExtractSeriesKey(c) == "weekly planning"
    ensures ExtractSeriesKey(a) != ExtractSeriesKey(c)
  {
    var ta, tb, tc := "daily standup 10/15/2023", "daily standup 10/16/2023", "weekly planning";
    DatedStandupLower(a, ta);
    DatedStandupFixed(ta);
    DatedStandupPlain(ta);
    DailyStandupKey(a, ta);
    DatedStandupLower(b, tb);
    DatedStandupFixed(tb);
    DatedStandupPlain(tb);
    DailyStandupKey(b, tb);
    PlanningLower(c, tc);
    PlanningFixed(tc);
    TitlePlain(tc);
    PlanningNormal(tc);
    PlanningNoPhrase(tc);
    PlanningBase(tc);
    BaseNameKey(c, tc);
  }
}
