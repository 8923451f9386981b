/** Character classes and string operations shared by every module: the
    subset of Python's `str` methods and regular-expression character classes
    that the bot uses, written out over `seq<char>`. */
module Text {

  datatype Option<+T> = None | Some(value: T)

  /** Python's `\s` (and `str.isspace`): the ASCII controls 9-13 and 28-31,
      the space, and the Unicode space separators. */
  predicate IsSpace(c: char) {
    || ('\U{9}' <= c <= '\U{D}') || ('\U{1C}' <= c <= '\U{20}')
    || c == '\U{85}' || c == '\U{A0}' || c == '\U{1680}'
    || ('\U{2000}' <= c <= '\U{200A}') || c == '\U{2028}' || c == '\U{2029}'
    || c == '\U{202F}' || c == '\U{205F}' || c == '\U{3000}'
  }

  /** Python's `\d`, restricted to ASCII digits. */
  predicate IsDigit(c: char) {
    '0' <= c <= '9'
  }

  predicate IsAsciiLetter(c: char) {
    ('a' <= c <= 'z') || ('A' <= c <= 'Z')
  }

  /** Python's Unicode `\w`: ASCII letters, digits and `_`, and the letters and
      numeric signs of the Latin-1, Latin Extended, IPA, Greek and Cyrillic
      blocks. Other scripts are outside the model. */
  predicate IsWordChar(c: char) {
    || IsAsciiLetter(c) || IsDigit(c) || c == '_'
    || c == '\U{AA}' || c == '\U{B2}' || c == '\U{B3}' || c == '\U{B5}'
    || c == '\U{B9}' || c == '\U{BA}' || ('\U{BC}' <= c <= '\U{BE}')
    || ('\U{C0}' <= c <= '\U{D6}') || ('\U{D8}' <= c <= '\U{F6}')
    || ('\U{F8}' <= c <= '\U{2C1}')
    || c == '\U{386}' || ('\U{388}' <= c <= '\U{38A}') || c == '\U{38C}'
    || ('\U{38E}' <= c <= '\U{3A1}') || ('\U{3A3}' <= c <= '\U{3F5}')
    || ('\U{3F7}' <= c <= '\U{481}') || ('\U{48A}' <= c <= '\U{52F}')
  }

  /** `str.lower` on one character, for the capitals of ASCII, Latin-1, the
      basic Greek alphabet and basic Cyrillic. */
  function LowerChar(c: char): char {
    if 'A' <= c <= 'Z' then (c as int + 32) as char
    else if '\U{C0}' <= c <= '\U{DE}' && c != '\U{D7}' then (c as int + 32) as char
    else if '\U{391}' <= c <= '\U{3AB}' && c != '\U{3A2}' then (c as int + 32) as char
    else if '\U{410}' <= c <= '\U{42F}' then (c as int + 32) as char
    else if '\U{400}' <= c <= '\U{40F}' then (c as int + 80) as char
    else c
  }

  function Lower(s: string): string {
    seq(|s|, i requires 0 <= i < |s| => LowerChar(s[i]))
  }

  lemma LowerCharFacts(c: char)
    ensures LowerChar(LowerChar(c)) == LowerChar(c)
    ensures IsWordChar(LowerChar(c)) == IsWordChar(c)
    ensures IsSpace(LowerChar(c)) == IsSpace(c)
    ensures IsDigit(LowerChar(c)) == IsDigit(c)
  {
  }

  /** Number of whitespace characters at the front of `s[i..]`. */
  function SpaceRun(s: string, i: nat): (n: nat)
    requires i <= |s|
    ensures i + n <= |s|
    ensures forall k :: i <= k < i + n ==> IsSpace(s[k])
    ensures i + n < |s| ==> !IsSpace(s[i + n])
    decreases |s| - i
  {
    if i < |s| && IsSpace(s[i]) then 1 + SpaceRun(s, i + 1) else 0
  }

  /** `str.lstrip()`, `str.rstrip()` and `str.strip()` with no argument. */
  function LStrip(s: string): string {
    s[SpaceRun(s, 0)..]
  }

  function RStrip(s: string): string
    decreases |s|
  {
    if |s| > 0 && IsSpace(s[|s| - 1]) then RStrip(s[..|s| - 1]) else s
  }

  function Strip(s: string): string {
    RStrip(LStrip(s))
  }

  predicate NoEdgeSpace(s: string) {
    s == [] || (!IsSpace(s[0]) && !IsSpace(s[|s| - 1]))
  }

  lemma {:induction false} RStripShape(s: string)
    ensures exists j :: 0 <= j <= |s| && RStrip(s) == s[..j]
                        && (forall k :: j <= k < |s| ==> IsSpace(s[k]))
    ensures RStrip(s) != [] ==> !IsSpace(RStrip(s)[|RStrip(s)| - 1])
    decreases |s|
  {
    if |s| > 0 && IsSpace(s[|s| - 1]) {
      RStripShape(s[..|s| - 1]);
      var t := s[..|s| - 1];
      var j :| 0 <= j <= |t| && RStrip(t) == t[..j] && (forall k :: j <= k < |t| ==> IsSpace(t[k]));
      assert RStrip(s) == s[..j];
      forall k | j <= k < |s| ensures IsSpace(s[k]) {
        if k < |t| { assert s[k] == t[k]; }
      }
    } else {
      assert RStrip(s) == s[..|s|];
    }
  }

  /** The stripped text is a slice of its input with only whitespace cut off
      on either side, and it neither starts nor ends with whitespace. */
  lemma StripShape(s: string)
    ensures NoEdgeSpace(Strip(s))
    ensures exists i, j :: 0 <= i <= j <= |s| && Strip(s) == s[i..j]
                           && (forall k :: 0 <= k < i ==> IsSpace(s[k]))
                           && (forall k :: j <= k < |s| ==> IsSpace(s[k]))
  {
    var i := SpaceRun(s, 0);
    var t := s[i..];
    RStripShape(t);
    var j :| 0 <= j <= |t| && RStrip(t) == t[..j] && (forall k :: j <= k < |t| ==> IsSpace(t[k]));
    assert Strip(s) == s[i..i + j];
    forall k | i + j <= k < |s| ensures IsSpace(s[k]) {
      assert s[k] == t[k - i];
    }
  }

  /** A text without whitespace at either end is its own strip. */
  lemma StripNoEdge(s: string)
    requires NoEdgeSpace(s)
    ensures Strip(s) == s
  {
    assert SpaceRun(s, 0) == 0;
    assert LStrip(s) == s;
  }

  /** Characters up to the next whitespace (or the end). */
  function WordRun(s: string, i: nat): (n: nat)
    requires i <= |s|
    ensures i + n <= |s|
    ensures forall k :: i <= k < i + n ==> !IsSpace(s[k])
    ensures i + n < |s| ==> IsSpace(s[i + n])
    decreases |s| - i
  {
    if i < |s| && !IsSpace(s[i]) then 1 + WordRun(s, i + 1) else 0
  }

  /** `str.split()` with no argument: the maximal runs of non-whitespace. */
  function SplitWs(s: string): (ws: seq<string>)
    ensures forall w <- ws :: w != [] && forall c <- w :: !IsSpace(c)
    decreases |s|
  {
    var t := LStrip(s);
    if t == [] then []
    else
      var n := WordRun(t, 0);
      assert t[..n] != [] by { assert !IsSpace(t[0]); }
      [t[..n]] + SplitWs(t[n..])
  }

  /** `sep.join(parts)`. */
  function Join(sep: string, parts: seq<string>): string {
    if parts == [] then []
    else if |parts| == 1 then parts[0]
    else parts[0] + sep + Join(sep, parts[1..])
  }

  /** The whitespace run at `i` is exactly `n` long when `n` spaces are
      followed by the end or by a non-space. */
  lemma {:induction false} SpaceRunExact(s: string, i: nat, n: nat)
    requires i + n <= |s|
    requires forall k :: i <= k < i + n ==> IsSpace(s[k])
    requires i + n == |s| || !IsSpace(s[i + n])
    ensures SpaceRun(s, i) == n
    decreases n
  {
    if n > 0 {
      SpaceRunExact(s, i + 1, n - 1);
    }
  }

  lemma {:induction false} WordRunExact(s: string, i: nat, n: nat)
    requires i + n <= |s|
    requires forall k :: i <= k < i + n ==> !IsSpace(s[k])
    requires i + n == |s| || IsSpace(s[i + n])
    ensures WordRun(s, i) == n
    decreases n
  {
    if n > 0 {
      WordRunExact(s, i + 1, n - 1);
    }
  }

  /** A word (non-empty, without whitespace) followed by whitespace or
      nothing splits off as the first word. */
  lemma SplitWsWord(w: string, t: string)
    requires w != [] && forall c <- w :: !IsSpace(c)
    requires t == [] || IsSpace(t[0])
    ensures SplitWs(w + t) == [w] + SplitWs(t)
  {
    var s := w + t;
    SpaceRunExact(s, 0, 0);
    assert LStrip(s) == s;
    forall k | 0 <= k < |w| ensures !IsSpace(s[k]) {
      assert s[k] == w[k] && w[k] in w;
    }
    WordRunExact(s, 0, |w|);
    assert s[..|w|] == w && s[|w|..] == t;
  }

  /** Leading whitespace does not change the split. */
  lemma SplitWsSpace(t: string)
    ensures SplitWs(" " + t) == SplitWs(t)
  {
    var s := " " + t;
    var n0 := SpaceRun(t, 0);
    forall k | 1 <= k < 1 + n0 ensures IsSpace(s[k]) {
      assert s[k] == t[k - 1];
    }
    SpaceRunExact(s, 1, n0);
    SpaceRunExact(s, 0, 1 + n0);
    assert s[1 + n0..] == t[n0..];
    assert LStrip(s) == LStrip(t);
  }

  predicate IsWord(w: string) {
    w != [] && forall c <- w :: !IsSpace(c)
  }

  /** Joining words with single spaces and splitting again gives the words
      back. */
  lemma {:induction false} SplitJoin(ws: seq<string>)
    requires forall w <- ws :: IsWord(w)
    ensures SplitWs(Join(" ", ws)) == ws
    decreases |ws|
  {
    if ws == [] {
      assert LStrip([]) == [];
    } else if |ws| == 1 {
      assert ws[0] in ws;
      SplitWsWord(ws[0], []);
      assert ws[0] + [] == ws[0];
      assert LStrip([]) == [];
    } else {
      assert forall w <- ws[1..] :: w in ws;
      SplitJoin(ws[1..]);
      assert ws[0] in ws;
      SplitJoinStep(ws[0], ws[1..]);
      assert [ws[0]] + ws[1..] == ws;
    }
  }

  lemma SplitJoinStep(w: string, ws: seq<string>)
    requires IsWord(w) && ws != [] && SplitWs(Join(" ", ws)) == ws
    ensures SplitWs(Join(" ", [w] + ws)) == [w] + ws
  {
    var rest := Join(" ", ws);
    assert ([w] + ws)[1..] == ws;
    assert Join(" ", [w] + ws) == w + (" " + rest);
    SplitWsSpace(rest);
    SplitWsWord(w, " " + rest);
  }

  /** Words joined by single spaces neither start nor end with whitespace. */
  lemma {:induction false} JoinNoEdge(ws: seq<string>)
    requires forall w <- ws :: IsWord(w)
    ensures NoEdgeSpace(Join(" ", ws))
    ensures ws != [] ==> Join(" ", ws) != []
    decreases |ws|
  {
    if |ws| > 1 {
      assert forall w <- ws[1..] :: w in ws;
      JoinNoEdge(ws[1..]);
      var j := Join(" ", ws);
      assert ws[0] in ws;
      assert j[0] == ws[0][0];
      var rest := Join(" ", ws[1..]);
      assert j[|j| - 1] == rest[|rest| - 1];
    } else if |ws| == 1 {
      assert ws[0] in ws;
    }
  }

  /** Python slice `s[:n]`. */
  function Take<T>(s: seq<T>, n: nat): (r: seq<T>)
    ensures |r| == if n <= |s| then n else |s|
    ensures r == s[..|r|]
  {
    if n <= |s| then s[..n] else s
  }

  /** `re.sub(r"\s+", " ", s)`: every maximal whitespace run becomes one space. */
  function CollapseWs(s: string): string
    decreases |s|
  {
    if s == [] then []
    else if IsSpace(s[0]) then [' '] + CollapseWs(s[SpaceRun(s, 0)..])
    else [s[0]] + CollapseWs(s[1..])
  }

  /** A text whose only whitespace is single, separated space characters. */
  predicate SingleSpaced(s: string) {
    && (forall k :: 0 <= k < |s| && IsSpace(s[k]) ==> s[k] == ' ')
    && (forall k :: 0 <= k < |s| - 1 ==> !(s[k] == ' ' && s[k + 1] == ' '))
  }

  lemma {:induction false} CollapseWsFacts(s: string)
    ensures SingleSpaced(CollapseWs(s))
    ensures |CollapseWs(s)| <= |s|
    ensures CollapseWs(s) != [] ==> (IsSpace(CollapseWs(s)[0]) <==> IsSpace(s[0]))
    ensures forall c <- CollapseWs(s) :: c in s || c == ' '
    decreases |s|
  {
    if s == [] {
    } else if IsSpace(s[0]) {
      var n := SpaceRun(s, 0);
      var rest := s[n..];
      CollapseWsFacts(rest);
      var r := CollapseWs(rest);
      assert CollapseWs(s) == [' '] + r;
      if r != [] {
        assert !IsSpace(rest[0]);
      }
      forall c | c in r ensures c in s || c == ' ' {
        if c in rest {
          var k :| 0 <= k < |rest| && rest[k] == c;
          assert s[n + k] == c;
        }
      }
    } else {
      CollapseWsFacts(s[1..]);
      var r := CollapseWs(s[1..]);
      assert CollapseWs(s) == [s[0]] + r;
      forall c | c in r ensures c in s || c == ' ' {
        if c in s[1..] {
          var k :| 0 <= k < |s[1..]| && s[1..][k] == c;
          assert s[k + 1] == c;
        }
      }
    }
  }

  /** Collapsing a text that is already single-spaced changes nothing. */
  lemma {:induction false} CollapseWsFixed(s: string)
    requires SingleSpaced(s)
    ensures CollapseWs(s) == s
    decreases |s|
  {
    if s == [] {
    } else if IsSpace(s[0]) {
      assert s[0] == ' ';
      assert |s| > 1 ==> s[1] != ' ';
      assert SpaceRun(s, 1) == 0;
      assert s[SpaceRun(s, 0)..] == s[1..];
      assert SingleSpaced(s[1..]);
      CollapseWsFixed(s[1..]);
    } else {
      assert SingleSpaced(s[1..]);
      CollapseWsFixed(s[1..]);
    }
  }

  /** `p` occurs at position `i` of `s`. */
  predicate At(s: string, i: nat, p: string) {
    i + |p| <= |s| && s[i..i + |p|] == p
  }

  /** `s.startswith(p)`. */
  predicate StartsWith(s: string, p: string) {
    At(s, 0, p)
  }

  /** `p in s`. */
  predicate Contains(s: string, p: string) {
    exists i :: 0 <= i <= |s| && At(s, i, p)
  }

  /** `s.replace(pat, rep)` for a non-empty `pat`: every non-overlapping
      occurrence, scanning from the left, is replaced. */
  function ReplaceAll(s: string, pat: string, rep: string): string
    requires pat != []
    decreases |s|
  {
    if |s| < |pat| then s
    else if s[..|pat|] == pat then rep + ReplaceAll(s[|pat|..], pat, rep)
    else [s[0]] + ReplaceAll(s[1..], pat, rep)
  }

  /** Replacing a pattern that does not occur leaves the text unchanged. */
  lemma {:induction false} ReplaceAbsent(s: string, pat: string, rep: string)
    requires pat != [] && !Contains(s, pat)
    ensures ReplaceAll(s, pat, rep) == s
    decreases |s|
  {
    if |s| >= |pat| {
      assert !At(s, 0, pat);
      assert !Contains(s[1..], pat) by {
        if i :| 0 <= i <= |s[1..]| && At(s[1..], i, pat) {
          assert s[1 + i..1 + i + |pat|] == s[1..][i..i + |pat|];
          assert At(s, 1 + i, pat);
        }
      }
      ReplaceAbsent(s[1..], pat, rep);
      assert [s[0]] + s[1..] == s;
    }
  }

  /** A text with no edge whitespace is recovered from itself behind one space. */
  lemma StripAfterSpace(s: string)
    requires s != [] && NoEdgeSpace(s)
    ensures Strip(" " + s) == s
  {
    var t := " " + s;
    assert t[1] == s[0];
    assert SpaceRun(t, 1) == 0;
    assert SpaceRun(t, 0) == 1;
    assert LStrip(t) == s;
    StripNoEdge(s);
  }

  /** Decimal text of a natural number (`str(n)`). */
  function NatToString(n: nat): string
    decreases n
  {
    var d := ['0' + (n % 10) as char][0];
    if n < 10 then [d] else NatToString(n / 10) + [d]
  }

  /** The present results of `f` over `xs`, in order: the shape of a loop
      that appends each parsed record and skips the ones that fail. */
  function Somes<A, B>(xs: seq<A>, f: A -> Option<B>): (ys: seq<B>)
    ensures |ys| <= |xs|
    ensures forall y <- ys :: exists x <- xs :: f(x) == Some(y)
    ensures (forall x <- xs :: f(x).Some?) ==> |ys| == |xs|
  {
    if xs == [] then []
    else
      var rest := Somes(xs[1..], f);
      assert forall x <- xs[1..] :: x in xs;
      if f(xs[0]).Some? then [f(xs[0]).value] + rest else rest
  }

  lemma {:induction false} SomesSnoc<A, B>(xs: seq<A>, x: A, f: A -> Option<B>)
    ensures Somes(xs + [x], f) == Somes(xs, f) + (if f(x).Some? then [f(x).value] else [])
    decreases |xs|
  {
    if xs != [] {
      assert (xs + [x])[1..] == xs[1..] + [x];
      SomesSnoc(xs[1..], x, f);
    } else {
      assert [x][1..] == [];
    }
  }

  lemma {:induction false} SomesAppend<A, B>(xs: seq<A>, ys: seq<A>, f: A -> Option<B>)
    ensures Somes(xs + ys, f) == Somes(xs, f) + Somes(ys, f)
    decreases |xs|
  {
    if xs != [] {
      assert (xs + ys)[1..] == xs[1..] + ys;
      SomesAppend(xs[1..], ys, f);
    } else {
      assert xs + ys == ys;
    }
  }

  /** An element whose result is absent leaves the others' results alone. */
  lemma SomesSkip<A, B>(xs: seq<A>, x: A, ys: seq<A>, f: A -> Option<B>)
    requires f(x).None?
    ensures Somes(xs + [x] + ys, f) == Somes(xs + ys, f)
  {
    SomesAppend(xs + [x], ys, f);
    SomesAppend(xs, [x], f);
    SomesAppend(xs, ys, f);
    assert [x][1..] == [];
  }

  /** Every present result of an element is in the output. */
  lemma {:induction false} SomesMembers<A, B>(xs: seq<A>, f: A -> Option<B>, i: nat)
    requires i < |xs| && f(xs[i]).Some?
    ensures f(xs[i]).value in Somes(xs, f)
    decreases i
  {
    if i > 0 {
      SomesMembers(xs[1..], f, i - 1);
    }
  }

  /** `for x in xs: y = f(x); if y: out.append(y)`. */
  method CollectSome<A, B>(xs: seq<A>, f: A -> Option<B>) returns (ys: seq<B>)
    ensures ys == Somes(xs, f)
  {
    ys := [];
    for i := 0 to |xs|
      invariant ys == Somes(xs[..i], f)
    {
      SomesSnoc(xs[..i], xs[i], f);
      assert xs[..i + 1] == xs[..i] + [xs[i]];
      var y := f(xs[i]);
      if y.Some? {
        ys := ys + [y.value];
      }
    }
    assert xs[..|xs|] == xs;
  }

  predicate SortedBy<T>(s: seq<T>, key: T -> int) {
    forall i, j :: 0 <= i < j < |s| ==> key(s[i]) <= key(s[j])
  }

  /** Insert `x` before the first element whose key is not smaller than its
      own, so that `x` stays ahead of the elements with an equal key. */
  function InsertBy<T>(x: T, s: seq<T>, key: T -> int): seq<T>
    decreases |s|
  {
    if s == [] then [x]
    else if key(x) <= key(s[0]) then [x] + s
    else [s[0]] + InsertBy(x, s[1..], key)
  }

  /** Python's `sorted`/`list.sort` with a key: a stable insertion sort. */
  function SortBy<T>(s: seq<T>, key: T -> int): seq<T>
    decreases |s|
  {
    if s == [] then [] else InsertBy(s[0], SortBy(s[1..], key), key)
  }

  lemma {:induction false} InsertByPerm<T>(x: T, s: seq<T>, key: T -> int)
    ensures multiset(InsertBy(x, s, key)) == multiset(s) + multiset{x}
    decreases |s|
  {
    if s != [] && key(s[0]) < key(x) {
      InsertByPerm(x, s[1..], key);
      assert s == [s[0]] + s[1..];
    }
  }

  /** Every element of the insertion result is `x` or an element of `s`. */
  lemma InsertByMembers<T>(x: T, s: seq<T>, key: T -> int, y: T)
    requires y in InsertBy(x, s, key)
    ensures y == x || y in s
  {
    InsertByPerm(x, s, key);
    assert y in multiset(InsertBy(x, s, key));
  }

  lemma {:induction false} InsertBySorted<T>(x: T, s: seq<T>, key: T -> int)
    requires SortedBy(s, key)
    ensures SortedBy(InsertBy(x, s, key), key)
    decreases |s|
  {
    if s != [] && key(s[0]) < key(x) {
      var t := s[1..];
      assert SortedBy(t, key) by {
        forall i, j | 0 <= i < j < |t| ensures key(t[i]) <= key(t[j]) {
          assert t[i] == s[i + 1] && t[j] == s[j + 1];
        }
      }
      InsertBySorted(x, t, key);
      var r := InsertBy(x, t, key);
      var u := [s[0]] + r;
      forall i, j | 0 <= i < j < |u| ensures key(u[i]) <= key(u[j]) {
        if i == 0 {
          var y := u[j];
          assert y in r;
          InsertByMembers(x, t, key, y);
          if y != x {
            var k :| 0 <= k < |t| && t[k] == y;
            assert s[k + 1] == y;
          }
        } else {
          assert u[i] == r[i - 1] && u[j] == r[j - 1];
        }
      }
    }
  }

  /** The sort returns its input reordered by non-decreasing key. */
  lemma {:induction false} SortByFacts<T>(s: seq<T>, key: T -> int)
    ensures SortedBy(SortBy(s, key), key)
    ensures multiset(SortBy(s, key)) == multiset(s)
    ensures |SortBy(s, key)| == |s|
    decreases |s|
  {
    if s != [] {
      SortByFacts(s[1..], key);
      InsertByPerm(s[0], SortBy(s[1..], key), key);
      InsertBySorted(s[0], SortBy(s[1..], key), key);
      assert s == [s[0]] + s[1..];
    }
    assert |multiset(SortBy(s, key))| == |multiset(s)|;
  }

  // ---- The latest earlier item ----

  /** An item that `accept` takes, with a date strictly before `bound`. */
  predicate EarlierMatch<T>(x: T, accept: T -> bool, dateOf: T -> Option<int>, bound: int) {
    accept(x) && dateOf(x).Some? && dateOf(x).value < bound
  }

  /** `r` is what a stable newest-first sort of the earlier matches puts
      first: `None` when no item is an earlier match, otherwise the first
      earlier match, in list order, among those with the latest date. */
  predicate IsLatestEarlier<T(==)>(xs: seq<T>, accept: T -> bool, dateOf: T -> Option<int>, bound: int, r: Option<T>) {
    && (r.None? <==> forall i :: 0 <= i < |xs| ==> !EarlierMatch(xs[i], accept, dateOf, bound))
    && (r.Some? ==> exists i :: 0 <= i < |xs| && xs[i] == r.value
                                && EarlierMatch(xs[i], accept, dateOf, bound)
                                && (forall j :: 0 <= j < |xs| && EarlierMatch(xs[j], accept, dateOf, bound)
                                      ==> dateOf(xs[j]).value <= dateOf(xs[i]).value)
                                && (forall j :: 0 <= j < i && EarlierMatch(xs[j], accept, dateOf, bound)
                                      ==> dateOf(xs[j]).value < dateOf(xs[i]).value))
  }

  /** One pass keeping the first earlier match with the latest date. */
  method LatestEarlier<T(==)>(xs: seq<T>, accept: T -> bool, dateOf: T -> Option<int>, bound: int) returns (r: Option<T>)
    ensures IsLatestEarlier(xs, accept, dateOf, bound, r)
  {
    r := None;
    var at := 0;
    for i := 0 to |xs|
      invariant r.None? <==> forall j :: 0 <= j < i ==> !EarlierMatch(xs[j], accept, dateOf, bound)
      invariant r.Some? ==> 0 <= at < i && xs[at] == r.value && EarlierMatch(xs[at], accept, dateOf, bound)
                            && (forall j :: 0 <= j < i && EarlierMatch(xs[j], accept, dateOf, bound)
                                  ==> dateOf(xs[j]).value <= dateOf(xs[at]).value)
                            && (forall j :: 0 <= j < at && EarlierMatch(xs[j], accept, dateOf, bound)
                                  ==> dateOf(xs[j]).value < dateOf(xs[at]).value)
    {
      var x := xs[i];
      var d := dateOf(x);
      if accept(x) && d.Some? && d.value < bound {
        if r.None? || d.value > dateOf(xs[at]).value {
          r := Some(x);
          at := i;
        }
      }
    }
  }

  /** The choice is determined: a newest-first stable sort has one head. */
  lemma LatestEarlierUnique<T>(xs: seq<T>, accept: T -> bool, dateOf: T -> Option<int>, bound: int, r1: Option<T>, r2: Option<T>)
    requires IsLatestEarlier(xs, accept, dateOf, bound, r1)
    requires IsLatestEarlier(xs, accept, dateOf, bound, r2)
    ensures r1 == r2
  {
    if r1.Some? && r2.Some? {
      var i1 :| 0 <= i1 < |xs| && xs[i1] == r1.value && EarlierMatch(xs[i1], accept, dateOf, bound)
                && (forall j :: 0 <= j < |xs| && EarlierMatch(xs[j], accept, dateOf, bound)
                      ==> dateOf(xs[j]).value <= dateOf(xs[i1]).value)
                && (forall j :: 0 <= j < i1 && EarlierMatch(xs[j], accept, dateOf, bound)
                      ==> dateOf(xs[j]).value < dateOf(xs[i1]).value);
      var i2 :| 0 <= i2 < |xs| && xs[i2] == r2.value && EarlierMatch(xs[i2], accept, dateOf, bound)
                && (forall j :: 0 <= j < |xs| && EarlierMatch(xs[j], accept, dateOf, bound)
                      ==> dateOf(xs[j]).value <= dateOf(xs[i2]).value)
                && (forall j :: 0 <= j < i2 && EarlierMatch(xs[j], accept, dateOf, bound)
                      ==> dateOf(xs[j]).value < dateOf(xs[i2]).value);
      assert dateOf(xs[i1]).value == dateOf(xs[i2]).value;
      assert !(i1 < i2) && !(i2 < i1);
    }
  }
}
