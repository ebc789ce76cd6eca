/**
 The committed-identifier scan: words are looked for line by line, phrases in
 the whole text with any run of separators between their words.
 */
module Scanner {
  import opened Base
  import opened P = PlaneEnv

  const MIN_IDENTIFIER_LENGTH: nat := 4

  /** What is reported: the identifier, a line number from 1, and the line shown beside it. */
  datatype Violation = Violation(identifier: string, line: nat, shown: string)

  // ---------------------------------------------------------------- occurrences

  predicate At(s: string, w: string, i: nat) {
    i + |w| <= |s| && s[i..i + |w|] == w
  }

  ghost predicate Occurs(s: string, w: string) {
    exists i :: At(s, w, i)
  }

  /** `str.find(w, start)`. */
  function Find(s: string, w: string, start: nat): (o: Option<nat>)
    ensures o.Some? ==> start <= o.value && At(s, w, o.value) && forall k: nat :: start <= k < o.value ==> !At(s, w, k)
    ensures o.None? ==> forall k: nat :: start <= k ==> !At(s, w, k)
    decreases |s| - start
  {
    if At(s, w, start) then Some(start)
    else if start >= |s| then None
    else Find(s, w, start + 1)
  }

  /** Where a scan reports a word: from the left, going on after each hit. */
  function Hits(s: string, w: string, start: nat): (hs: seq<nat>)
    requires w != []
    decreases |s| - start
  {
    match Find(s, w, start)
    case None => []
    case Some(o) => [o] + Hits(s, w, o + |w|)
  }

  lemma {:induction false} HitIsAt(s: string, w: string, start: nat, i: nat)
    requires w != [] && i < |Hits(s, w, start)|
    ensures Hits(s, w, start)[i] >= start && At(s, w, Hits(s, w, start)[i])
    decreases |s| - start
  {
    if i > 0 { HitIsAt(s, w, Find(s, w, start).value + |w|, i - 1); }
  }

  /** Hits do not overlap, and come from the left. */
  lemma {:induction false} HitsApart(s: string, w: string, start: nat, i: nat, j: nat)
    requires w != [] && i < j < |Hits(s, w, start)|
    ensures Hits(s, w, start)[i] + |w| <= Hits(s, w, start)[j]
    decreases |s| - start
  {
    var next := Find(s, w, start).value + |w|;
    if i > 0 { HitsApart(s, w, next, i - 1, j - 1); } else { HitIsAt(s, w, next, j - 1); }
  }

  /** No occurrence is missed: each is reported, or overlaps a reported one. */
  lemma {:induction false} EveryOccurrence(s: string, w: string, start: nat, k: nat) returns (i: nat)
    requires w != [] && start <= k && At(s, w, k)
    ensures i < |Hits(s, w, start)| && Hits(s, w, start)[i] <= k < Hits(s, w, start)[i] + |w|
    decreases |s| - start
  {
    var o := Find(s, w, start).value;
    if k < o + |w| {
      i := 0;
    } else {
      var j := EveryOccurrence(s, w, o + |w|, k);
      i := j + 1;
    }
  }

  lemma HitsIff(s: string, w: string)
    requires w != []
    ensures Hits(s, w, 0) != [] <==> Occurs(s, w)
  {
    if Hits(s, w, 0) != [] { HitIsAt(s, w, 0, 0); }
    if k: nat :| At(s, w, k) { var i := EveryOccurrence(s, w, 0, k); }
  }

  // ---------------------------------------------------------------- lines

  ghost predicate OneLine(w: string) {
    w != [] && forall i :: 0 <= i < |w| ==> !IsBreak(w[i])
  }

  lemma AtChar(s: string, w: string, k: nat, i: nat)
    requires At(s, w, k) && i < |w|
    ensures s[k + i] == w[i]
  {
    assert s[k..k + |w|][i] == s[k + i];
  }

  lemma AtPart(s: string, part: string, from: nat, w: string, k: nat)
    requires from + |part| <= |s| && s[from..from + |part|] == part && k + |w| <= |part|
    ensures At(part, w, k) <==> At(s, w, from + k)
  {
    forall y | 0 <= y < |part| ensures part[y] == s[from + y] { assert s[from..from + |part|][y] == s[from + y]; }
    if from + k + |w| <= |s| { assert part[k..k + |w|] == s[from + k..from + k + |w|]; }
  }

  /** How far a boundary at `i` reaches. */
  function BreakEnd(s: string, i: nat): (d: nat)
    requires i < |s|
    ensures i < d <= |s| && AfterBreak(s, i) == s[d..]
    ensures forall k :: i < k < d ==> s[k] == '\n'
  {
    if s[i] == '\r' && i + 1 < |s| && s[i + 1] == '\n' then i + 2 else i + 1
  }

  /** An occurrence lies before the first boundary or after it. */
  lemma NotAcross(s: string, w: string, k: nat)
    requires OneLine(w) && At(s, w, k) && FirstBreak(s) < |s|
    ensures k + |w| <= FirstBreak(s) || BreakEnd(s, FirstBreak(s)) <= k
  {
    var i := FirstBreak(s);
    if k <= i < k + |w| { AtChar(s, w, k, i - k); }
    if i < k < BreakEnd(s, i) { AtChar(s, w, k, 0); }
  }

  ghost predicate InSomeLine(ls: seq<string>, w: string) {
    exists n :: 0 <= n < |ls| && Occurs(ls[n], w)
  }

  lemma InFirstOrRest(first: string, rest: seq<string>, w: string)
    ensures InSomeLine([first] + rest, w) <==> Occurs(first, w) || InSomeLine(rest, w)
  {
    var all := [first] + rest;
    if n :| 0 <= n < |all| && Occurs(all[n], w) {
      if n > 0 { assert all[n] == rest[n - 1]; }
    }
    if Occurs(first, w) { assert Occurs(all[0], w); }
    if n :| 0 <= n < |rest| && Occurs(rest[n], w) { assert all[n + 1] == rest[n]; }
  }

  /** A word without line boundaries occurs in the text exactly when it occurs in one of its lines. */
  lemma {:induction false} LineByLine(s: string, w: string)
    requires OneLine(w)
    ensures Occurs(s, w) <==> InSomeLine(Lines(s), w)
    decreases |s|
  {
    if s == "" {
    } else {
      var i := FirstBreak(s);
      var first := s[..i];
      if i == |s| {
        assert first == s && Lines(s) == [first] + [];
        InFirstOrRest(first, [], w);
      } else {
        var d := BreakEnd(s, i);
        LineByLine(s[d..], w);
        InFirstOrRest(first, Lines(s[d..]), w);
        TwoParts(s, w, i, d);
      }
    }
  }

  lemma TwoParts(s: string, w: string, i: nat, d: nat)
    requires OneLine(w) && i == FirstBreak(s) < |s| && d == BreakEnd(s, i)
    ensures Occurs(s, w) <==> Occurs(s[..i], w) || Occurs(s[d..], w)
  {
    if k: nat :| At(s, w, k) {
      NotAcross(s, w, k);
      InPart(s, w, i, d, k);
    }
    PartIn(s, 0, i, w);
    PartIn(s, d, |s|, w);
    assert s[0..i] == s[..i] && s[d..|s|] == s[d..];
  }

  lemma InPart(s: string, w: string, i: nat, d: nat, k: nat)
    requires i <= d <= |s| && At(s, w, k) && (k + |w| <= i || d <= k)
    ensures Occurs(s[..i], w) || Occurs(s[d..], w)
  {
    if k + |w| <= i {
      AtPart(s, s[..i], 0, w, k);
      assert At(s[..i], w, k);
    } else {
      AtPart(s, s[d..], d, w, k - d);
      assert At(s[d..], w, k - d);
    }
  }

  lemma PartIn(s: string, from: nat, to: nat, w: string)
    requires from <= to <= |s|
    ensures Occurs(s[from..to], w) ==> Occurs(s, w)
  {
    if k: nat :| At(s[from..to], w, k) {
      AtPart(s, s[from..to], from, w, k);
      assert At(s, w, from + k);
    }
  }

  lemma LowerBreak(c: char)
    ensures IsBreak(LowerChar(c)) == IsBreak(c) && (LowerChar(c) == '\n' <==> c == '\n') && (LowerChar(c) == '\r' <==> c == '\r')
    ensures P.IsSpace(LowerChar(c)) == P.IsSpace(c)
  {
  }

  lemma {:induction false} LowerFirstBreak(s: string)
    ensures FirstBreak(Lower(s)) == FirstBreak(s)
    decreases |s|
  {
    if s != "" {
      LowerBreak(s[0]);
      LowerFirstBreak(s[1..]);
      assert Lower(s)[1..] == Lower(s[1..]);
    }
  }

  function LowerAll(ls: seq<string>): (r: seq<string>)
    ensures |r| == |ls|
  {
    seq(|ls|, i requires 0 <= i < |ls| => Lower(ls[i]))
  }

  lemma LowerBreakEnd(s: string, i: nat)
    requires i < |s|
    ensures BreakEnd(Lower(s), i) == BreakEnd(s, i)
  {
    LowerBreak(s[i]);
    if i + 1 < |s| { LowerBreak(s[i + 1]); }
  }

  lemma LowerParts(s: string, i: nat)
    requires i <= |s|
    ensures Lower(s)[..i] == Lower(s[..i]) && Lower(s)[i..] == Lower(s[i..])
  {
  }

  lemma LowerCons(line: string, ls: seq<string>)
    ensures LowerAll([line] + ls) == [Lower(line)] + LowerAll(ls)
  {
  }

  lemma LinesStep(s: string, i: nat, d: nat)
    requires s != "" && i == FirstBreak(s) && if i == |s| then d == i else d == BreakEnd(s, i)
    ensures Lines(s) == [s[..i]] + (if i == |s| then [] else Lines(s[d..]))
  {
  }

  /** Lower-casing moves no line boundary. */
  lemma {:induction false} LowerLines(s: string)
    ensures Lines(Lower(s)) == LowerAll(Lines(s))
    decreases |s|
  {
    if s != "" {
      var i := FirstBreak(s);
      var d := if i == |s| then i else BreakEnd(s, i);
      LowerFirstBreak(s);
      if i < |s| { LowerBreakEnd(s, i); }
      LinesStep(s, i, d);
      LinesStep(Lower(s), i, d);
      LowerParts(s, i);
      LowerParts(s, d);
      if i < |s| {
        LowerLines(s[d..]);
        LowerCons(s[..i], Lines(s[d..]));
      }
    }
  }

  // ---------------------------------------------------------------- phrases

  predicate IsSeparator(c: char) {
    P.IsSpace(c) || c == '.' || c == '_' || c == '-'
  }

  function SeparatorRun(s: string, i: nat): (n: nat)
    requires i <= |s|
    ensures i + n <= |s|
    ensures forall k :: i <= k < i + n ==> IsSeparator(s[k])
    ensures i + n < |s| ==> !IsSeparator(s[i + n])
    decreases |s| - i
  {
    if i == |s| || !IsSeparator(s[i]) then 0 else 1 + SeparatorRun(s, i + 1)
  }

  /** The matcher: a word, the longest run of separators that lets the rest match, the rest. */
  function MatchAt(s: string, i: nat, ws: seq<string>): (end: Option<nat>)
    requires ws != []
    decreases |ws|, 0
  {
    if !At(s, ws[0], i) then None
    else if |ws| == 1 then Some(i + |ws[0]|)
    else MatchAfter(s, i + |ws[0]|, SeparatorRun(s, i + |ws[0]|), ws[1..])
  }

  function MatchAfter(s: string, i: nat, n: nat, ws: seq<string>): (end: Option<nat>)
    requires ws != [] && i + n <= |s|
    decreases |ws|, 1, n
  {
    if n == 0 then None
    else match MatchAt(s, i + n, ws)
      case Some(e) => Some(e)
      case None => MatchAfter(s, i, n - 1, ws)
  }

  ghost predicate Separators(s: string, i: nat, j: nat) {
    i < j <= |s| && forall k :: i <= k < j ==> IsSeparator(s[k])
  }

  /** The words stand in order from `i` to `j`, with a run of separators between each two. */
  ghost predicate Spelled(s: string, ws: seq<string>, i: nat, j: nat)
    requires ws != []
    decreases |ws|
  {
    At(s, ws[0], i) &&
    if |ws| == 1 then j == i + |ws[0]|
    else exists k: nat :: Separators(s, i + |ws[0]|, k) && Spelled(s, ws[1..], k, j)
  }

  lemma {:induction false} MatchIsSpelled(s: string, i: nat, ws: seq<string>)
    requires ws != []
    ensures MatchAt(s, i, ws).Some? ==> Spelled(s, ws, i, MatchAt(s, i, ws).value)
    decreases |ws|, 0
  {
    if At(s, ws[0], i) && |ws| > 1 {
      var m := i + |ws[0]|;
      AfterIsSpelled(s, m, SeparatorRun(s, m), ws[1..]);
    }
  }

  lemma {:induction false} AfterIsSpelled(s: string, i: nat, n: nat, ws: seq<string>)
    requires ws != [] && i + n <= |s| && forall k :: i <= k < i + n ==> IsSeparator(s[k])
    ensures MatchAfter(s, i, n, ws).Some? ==> exists k: nat :: Separators(s, i, k) && Spelled(s, ws, k, MatchAfter(s, i, n, ws).value)
    decreases |ws|, 1, n
  {
    if n > 0 {
      MatchIsSpelled(s, i + n, ws);
      if MatchAt(s, i + n, ws).Some? {
        assert Separators(s, i, i + n);
      } else {
        AfterIsSpelled(s, i, n - 1, ws);
      }
    }
  }

  lemma {:induction false} SpelledMatches(s: string, i: nat, j: nat, ws: seq<string>)
    requires ws != [] && Spelled(s, ws, i, j)
    ensures MatchAt(s, i, ws).Some?
    decreases |ws|, 0
  {
    if |ws| > 1 {
      var m := i + |ws[0]|;
      var k: nat :| Separators(s, m, k) && Spelled(s, ws[1..], k, j);
      var n := SeparatorRun(s, m);
      SpelledAfter(s, m, n, k, j, ws[1..]);
    }
  }

  lemma {:induction false} SpelledAfter(s: string, i: nat, n: nat, k: nat, j: nat, ws: seq<string>)
    requires ws != [] && i + n <= |s| && i < k <= i + n && Spelled(s, ws, k, j)
    ensures MatchAfter(s, i, n, ws).Some?
    decreases |ws|, 1, n
  {
    if k == i + n { SpelledMatches(s, k, j, ws); } else { SpelledAfter(s, i, n - 1, k, j, ws); }
  }

  /** The backtracking matcher finds an end exactly when the words are spelled from there. */
  lemma MatchIff(s: string, i: nat, ws: seq<string>)
    requires ws != []
    ensures MatchAt(s, i, ws).Some? <==> exists j: nat :: Spelled(s, ws, i, j)
  {
    MatchIsSpelled(s, i, ws);
    if MatchAt(s, i, ws).Some? { assert Spelled(s, ws, i, MatchAt(s, i, ws).value); }
    if j: nat :| Spelled(s, ws, i, j) { SpelledMatches(s, i, j, ws); }
  }

  lemma {:induction false} MatchEnd(s: string, i: nat, j: nat, ws: seq<string>)
    requires ws != [] && Spelled(s, ws, i, j) && ws[0] != []
    ensures i < j <= |s|
    decreases |ws|
  {
    if |ws| > 1 {
      var k: nat :| Separators(s, i + |ws[0]|, k) && Spelled(s, ws[1..], k, j);
      if ws[1] != [] { MatchEnd(s, k, j, ws[1..]); } else { SpelledEnd(s, k, j, ws[1..]); }
    }
  }

  lemma {:induction false} SpelledEnd(s: string, i: nat, j: nat, ws: seq<string>)
    requires ws != [] && Spelled(s, ws, i, j)
    ensures i <= j <= |s|
    decreases |ws|
  {
    if |ws| > 1 {
      var k: nat :| Separators(s, i + |ws[0]|, k) && Spelled(s, ws[1..], k, j);
      SpelledEnd(s, k, j, ws[1..]);
    }
  }

  /** `re.finditer`: from the left, going on after each match. */
  function FindAll(s: string, ws: seq<string>, start: nat): (ms: seq<(nat, nat)>)
    requires ws != []
    decreases |s| - start
  {
    if start > |s| then [] else
    match MatchAt(s, start, ws)
    case Some(e) => if e > start then [(start, e)] + FindAll(s, ws, e) else []
    case None => FindAll(s, ws, start + 1)
  }

  lemma {:induction false} FoundIsSpelled(s: string, ws: seq<string>, start: nat, n: nat)
    requires ws != [] && n < |FindAll(s, ws, start)|
    ensures var m := FindAll(s, ws, start)[n]; start <= m.0 < m.1 && Spelled(s, ws, m.0, m.1)
    decreases |s| - start
  {
    if start <= |s| {
      match MatchAt(s, start, ws)
      case Some(e) =>
        MatchIsSpelled(s, start, ws);
        if n > 0 && e > start { FoundIsSpelled(s, ws, e, n - 1); }
      case None => FoundIsSpelled(s, ws, start + 1, n);
    }
  }

  lemma {:induction false} SpelledIsFound(s: string, ws: seq<string>, start: nat, i: nat, j: nat)
    requires ws != [] && ws[0] != [] && start <= i && Spelled(s, ws, i, j)
    ensures FindAll(s, ws, start) != []
    decreases |s| - start
  {
    MatchEnd(s, i, j, ws);
    match MatchAt(s, start, ws)
    case Some(e) =>
      MatchIsSpelled(s, start, ws);
      MatchEnd(s, start, e, ws);
    case None =>
      if i == start { SpelledMatches(s, i, j, ws); }
      SpelledIsFound(s, ws, start + 1, i, j);
  }

  /** The words of an identifier appear somewhere, in order, however they are separated. */
  ghost predicate Present(s: string, ws: seq<string>)
    requires ws != []
  {
    exists i: nat, j: nat :: Spelled(s, ws, i, j)
  }

  lemma FoundIff(s: string, ws: seq<string>)
    requires ws != [] && ws[0] != []
    ensures FindAll(s, ws, 0) != [] <==> Present(s, ws)
  {
    if FindAll(s, ws, 0) != [] { FoundIsSpelled(s, ws, 0, 0); }
    if i: nat, j: nat :| Spelled(s, ws, i, j) { SpelledIsFound(s, ws, 0, i, j); }
  }

  lemma OneWordPresent(s: string, w: string)
    ensures Present(s, [w]) <==> Occurs(s, w)
  {
    if i: nat :| At(s, w, i) { assert Spelled(s, [w], i, i + |w|); }
  }

  /** The words written out with the given separators between them. */
  function Written(ws: seq<string>, seps: seq<string>): (t: string)
    requires |ws| == |seps| + 1
    decreases |ws|
  {
    if |ws| == 1 then ws[0] else ws[0] + (seps[0] + Written(ws[1..], seps[1..]))
  }

  ghost predicate SeparatorText(t: string) {
    t != [] && forall k :: 0 <= k < |t| ==> IsSeparator(t[k])
  }

  /** Every spelling is found, whatever separators it uses and wherever it stands. */
  lemma {:induction false} EverySpelling(before: string, ws: seq<string>, seps: seq<string>, after: string)
    requires |ws| == |seps| + 1 && forall k :: 0 <= k < |seps| ==> SeparatorText(seps[k])
    ensures Spelled(before + (Written(ws, seps) + after), ws, |before|, |before| + |Written(ws, seps)|)
    decreases |ws|
  {
    var text := before + (Written(ws, seps) + after);
    if |ws| == 1 {
      assert text[|before|..|before| + |ws[0]|] == ws[0];
    } else {
      var rest := Written(ws[1..], seps[1..]);
      var front := before + ws[0] + seps[0];
      assert text == before + (ws[0] + (seps[0] + rest) + after);
      FirstWord(before, ws[0], seps[0], rest, after, text);
      EverySpelling(front, ws[1..], seps[1..], after);
      assert Separators(text, |before| + |ws[0]|, |front|);
    }
  }

  lemma FirstWord(before: string, w: string, sep: string, rest: string, after: string, text: string)
    requires text == before + (w + (sep + rest) + after) && SeparatorText(sep)
    ensures text == before + w + sep + (rest + after)
    ensures At(text, w, |before|) && Separators(text, |before| + |w|, |before| + |w| + |sep|)
  {
    assert text == before + w + sep + (rest + after);
    assert text[|before|..|before| + |w|] == w;
    forall k | |before| + |w| <= k < |before| + |w| + |sep| ensures IsSeparator(text[k]) {
      assert text[k] == sep[k - |before| - |w|];
    }
  }

  // ---------------------------------------------------------------- identifiers

  function SpaceRun(s: string, space: bool): (n: nat)
    ensures n <= |s|
    ensures forall i :: 0 <= i < n ==> P.IsSpace(s[i]) == space
    ensures n < |s| ==> P.IsSpace(s[n]) != space
  {
    if s == [] || P.IsSpace(s[0]) != space then 0 else 1 + SpaceRun(s[1..], space)
  }

  ghost predicate Word(w: string) {
    w != [] && forall i :: 0 <= i < |w| ==> !P.IsSpace(w[i])
  }

  ghost predicate Words(ws: seq<string>) {
    forall i :: 0 <= i < |ws| ==> Word(ws[i])
  }

  /** `str.split()`. */
  function Split(s: string): (ws: seq<string>)
    decreases |s|
  {
    var word := s[SpaceRun(s, true)..];
    if word == [] then [] else
    var n := SpaceRun(word, false);
    [word[..n]] + Split(word[n..])
  }

  lemma FirstIsWord(word: string, n: nat)
    requires word != [] && !P.IsSpace(word[0]) && n == SpaceRun(word, false)
    ensures Word(word[..n])
  {
  }

  lemma {:induction false} SplitWords(s: string)
    ensures Words(Split(s))
    decreases |s|
  {
    var word := s[SpaceRun(s, true)..];
    if word != [] {
      var n := SpaceRun(word, false);
      FirstIsWord(word, n);
      SplitWords(word[n..]);
      var rest := Split(word[n..]);
      forall i | 0 <= i < |Split(s)| ensures Word(Split(s)[i]) {
        if i > 0 { assert Split(s)[i] == rest[i - 1]; }
      }
    }
  }

  function Joined(ws: seq<string>): (s: string) {
    if ws == [] then "" else if |ws| == 1 then ws[0] else ws[0] + ([' '] + Joined(ws[1..]))
  }

  lemma RunIs(s: string, space: bool, n: nat)
    requires n <= |s| && (forall i :: 0 <= i < n ==> P.IsSpace(s[i]) == space) && (n < |s| ==> P.IsSpace(s[n]) != space)
    ensures SpaceRun(s, space) == n
  {
    var m := SpaceRun(s, space);
    assert !(m < n) && !(n < m);
  }

  lemma SplitFirst(s: string, w: string)
    requires Word(w) && |w| <= |s| && s[..|w|] == w && (|w| < |s| ==> P.IsSpace(s[|w|]))
    ensures Split(s) == [w] + Split(s[|w|..])
  {
    forall i | 0 <= i < |w| ensures !P.IsSpace(s[i]) { assert s[i] == w[i]; }
    RunIs(s, true, 0);
    assert s[0..] == s;
    RunIs(s, false, |w|);
  }

  lemma SplitSpace(rest: string)
    ensures Split([' '] + rest) == Split(rest)
  {
    var s := [' '] + rest;
    var n := SpaceRun(rest, true);
    forall i | 0 < i < |s| ensures s[i] == rest[i - 1] { }
    RunIs(s, true, n + 1);
    assert s[n + 1..] == rest[n..];
  }

  /** Joining words and splitting again gives the words. */
  lemma {:induction false} SplitJoined(ws: seq<string>)
    requires Words(ws)
    ensures Split(Joined(ws)) == ws
    decreases |ws|
  {
    if ws == [] {
      SplitNothing();
    } else if |ws| == 1 {
      SplitLast(ws[0]);
    } else {
      SplitMore(ws[0], Joined(ws[1..]));
      SplitJoined(ws[1..]);
    }
  }

  lemma SplitNothing()
    ensures Split("") == []
  {
  }

  lemma SplitLast(w: string)
    requires Word(w)
    ensures Split(w) == [w]
  {
    assert w[..|w|] == w && w[|w|..] == "";
    SplitFirst(w, w);
    SplitNothing();
  }

  lemma SplitMore(w: string, rest: string)
    requires Word(w)
    ensures Split(w + ([' '] + rest)) == [w] + Split(rest)
  {
    var s := w + ([' '] + rest);
    assert s[..|w|] == w && s[|w|..] == [' '] + rest;
    SplitFirst(s, w);
    SplitSpace(rest);
  }

  function Normal(raw: string): (n: string) {
    Joined(Split(Lower(raw)))
  }

  /** Too short an identifier, measured with its white space collapsed, is dropped. */
  function Filtered(raw: set<string>): (ids: set<string>) {
    set r | r in raw && |Normal(r)| >= MIN_IDENTIFIER_LENGTH :: Normal(r)
  }

  lemma LowerTwice(c: char)
    ensures LowerChar(LowerChar(c)) == LowerChar(c)
  {
  }

  ghost predicate IsLower(s: string) {
    forall i :: 0 <= i < |s| ==> LowerChar(s[i]) == s[i]
  }

  lemma StaysLower(s: string, i: nat)
    requires IsLower(s) && i <= |s|
    ensures IsLower(s[..i]) && IsLower(s[i..])
  {
  }

  ghost predicate AllLower(ws: seq<string>) {
    forall k :: 0 <= k < |ws| ==> IsLower(ws[k])
  }

  lemma LowerAppend(a: seq<string>, b: seq<string>)
    requires AllLower(a) && AllLower(b)
    ensures AllLower(a + b)
  {
  }

  lemma {:induction false} SplitLower(s: string)
    requires IsLower(s)
    ensures AllLower(Split(s))
    decreases |s|
  {
    var word := s[SpaceRun(s, true)..];
    if word != [] {
      var n := SpaceRun(word, false);
      StaysLower(s, SpaceRun(s, true));
      StaysLower(word, n);
      SplitLower(word[n..]);
      LowerAppend([word[..n]], Split(word[n..]));
    }
  }

  lemma {:induction false} JoinedLower(ws: seq<string>)
    requires AllLower(ws)
    ensures IsLower(Joined(ws))
    decreases |ws|
  {
    if |ws| == 1 {
    } else if ws != [] {
      JoinedLower(ws[1..]);
      var a, b := ws[0], Joined(ws[1..]);
      forall i | 0 <= i < |a + ([' '] + b)| ensures LowerChar((a + ([' '] + b))[i]) == (a + ([' '] + b))[i] {
        if i < |a| { } else if i > |a| { assert (a + ([' '] + b))[i] == b[i - |a| - 1]; }
      }
    }
  }

  lemma NormalIsLower(raw: string)
    ensures IsLower(Normal(raw))
  {
    forall i | 0 <= i < |raw| ensures LowerChar(Lower(raw)[i]) == Lower(raw)[i] { LowerTwice(raw[i]); }
    SplitLower(Lower(raw));
    JoinedLower(Split(Lower(raw)));
  }

  /** A normal identifier is normal already, so filtering a filtered set changes nothing. */
  lemma NormalTwice(raw: string)
    ensures Normal(Normal(raw)) == Normal(raw)
    ensures Split(Normal(raw)) == Split(Lower(raw))
  {
    var n := Normal(raw);
    NormalIsLower(raw);
    assert Lower(n) == n;
    SplitWords(Lower(raw));
    SplitJoined(Split(Lower(raw)));
  }

  lemma FilteredTwice(raw: set<string>)
    ensures Filtered(Filtered(raw)) == Filtered(raw)
  {
    forall n ensures n in Filtered(Filtered(raw)) <==> n in Filtered(raw) {
      if n in Filtered(Filtered(raw)) {
        var m :| m in Filtered(raw) && Normal(m) == n;
        var r :| r in raw && Normal(r) == m;
        NormalTwice(r);
      }
      if n in Filtered(raw) {
        var r :| r in raw && Normal(r) == n;
        NormalTwice(r);
      }
    }
  }

  predicate IsPhrase(id: string) {
    ' ' in id
  }

  lemma {:induction false} JoinedSpace(ws: seq<string>)
    requires Words(ws)
    ensures ' ' in Joined(ws) <==> |ws| > 1
    decreases |ws|
  {
    if |ws| > 1 {
      assert Joined(ws)[|ws[0]|] == ' ';
    }
  }

  /** A filtered identifier is its words joined by single spaces, and a phrase exactly when it has several. */
  lemma FilteredIs(raw: set<string>, id: string)
    requires id in Filtered(raw)
    ensures Split(id) != [] && Words(Split(id)) && id == Joined(Split(id))
    ensures IsPhrase(id) <==> |Split(id)| > 1
    ensures !IsPhrase(id) ==> Split(id) == [id] && Word(id)
  {
    var r :| r in raw && Normal(r) == id;
    NormalTwice(r);
    SplitWords(Lower(r));
    JoinedSpace(Split(Lower(r)));
  }

  // ---------------------------------------------------------------- the scan

  function Count(vs: seq<Violation>, id: string): (n: nat) {
    if vs == [] then 0 else Count(vs[1..], id) + (if vs[0].identifier == id then 1 else 0)
  }

  lemma {:induction false} CountAppend(a: seq<Violation>, b: seq<Violation>, id: string)
    ensures Count(a + b, id) == Count(a, id) + Count(b, id)
  {
    if a == [] {
      assert a + b == b;
    } else {
      assert (a + b)[1..] == a[1..] + b;
      CountAppend(a[1..], b, id);
    }
  }

  lemma CountAppendAll(a: seq<Violation>, b: seq<Violation>)
    ensures forall id :: Count(a + b, id) == Count(a, id) + Count(b, id)
  {
    forall id ensures Count(a + b, id) == Count(a, id) + Count(b, id) { CountAppend(a, b, id); }
  }

  function HitsIn(ls: seq<string>, w: string): (n: nat)
    requires w != []
  {
    if ls == [] then 0 else HitsIn(ls[..|ls| - 1], w) + |Hits(Lower(ls[|ls| - 1]), w, 0)|
  }

  /** One word in one line. */
  method ScanWord(lower: string, line: string, number: nat, w: string) returns (vs: seq<Violation>)
    requires w != []
    ensures vs == Repeat(Violation(w, number, line), |Hits(lower, w, 0)|)
  {
    vs := [];
    var start := 0;
    ghost var all := Hits(lower, w, 0);
    while true
      invariant |vs| + |Hits(lower, w, start)| == |all|
      invariant vs == Repeat(Violation(w, number, line), |vs|)
      decreases |lower| - start
    {
      HitsStep(lower, w, start);
      var offset := Find(lower, w, start);
      if offset.None? {
        break;
      }
      RepeatMore(Violation(w, number, line), |vs|);
      vs := vs + [Violation(w, number, line)];
      start := offset.value + |w|;
    }
  }

  lemma HitsStep(s: string, w: string, start: nat)
    requires w != []
    ensures match Find(s, w, start)
            case None => |Hits(s, w, start)| == 0
            case Some(o) => start < o + |w| <= |s| && |Hits(s, w, start)| == 1 + |Hits(s, w, o + |w|)|
  {
  }

  lemma RepeatMore(v: Violation, n: nat)
    ensures Repeat(v, n) + [v] == Repeat(v, n + 1)
  {
  }

  function Repeat(v: Violation, n: nat): (vs: seq<Violation>)
    ensures |vs| == n
  {
    seq(n, i => v)
  }

  lemma {:induction false} CountRepeat(v: Violation, n: nat, id: string)
    ensures Count(Repeat(v, n), id) == if v.identifier == id then n else 0
  {
    if n > 0 {
      assert Repeat(v, n)[1..] == Repeat(v, n - 1);
      CountRepeat(v, n - 1, id);
    }
  }

  ghost predicate AllWords(ids: set<string>) {
    forall w :: w in ids ==> w != []
  }

  /** A word is reported on a line it occurs on, and that line is shown. */
  ghost predicate WordPlaced(lines: seq<string>, v: Violation) {
    1 <= v.line <= |lines| && v.shown == lines[v.line - 1] && Occurs(Lower(v.shown), v.identifier)
  }

  /** The line shown for a number that counts line feeds, or nothing when there is no such line. */
  function Shown(lines: seq<string>, number: nat): string
    requires number >= 1
  {
    if number <= |lines| then lines[number - 1] else ""
  }

  /** What is reported for a phrase that starts at `i`. */
  function PhraseViolation(text: string, p: string, i: nat): Violation
    requires i <= |text|
  {
    Violation(p, Newlines(text[..i]) + 1, Shown(Lines(text), Newlines(text[..i]) + 1))
  }

  /** A phrase is reported for one of its occurrences, by the line feeds before it. */
  ghost predicate PhrasePlaced(text: string, v: Violation) {
    Split(v.identifier) != [] &&
    exists i: nat, j: nat ::
      i < j <= |text| && Spelled(Lower(text), Split(v.identifier), i, j) && v == PhraseViolation(text, v.identifier, i)
  }

  lemma RepeatPlaced(line: string, w: string, number: nat, v: Violation)
    requires w != [] && v in Repeat(Violation(w, number, line), |Hits(Lower(line), w, 0)|)
    ensures v == Violation(w, number, line) && Occurs(Lower(line), w)
  {
    HitsIff(Lower(line), w);
  }

  /** Every word in one line. */
  method ScanLine(line: string, number: nat, words: set<string>) returns (vs: seq<Violation>)
    requires AllWords(words)
    ensures forall id :: Count(vs, id) == if id in words then |Hits(Lower(line), id, 0)| else 0
    ensures forall v :: v in vs ==> v.line == number && v.shown == line && v.identifier in words && Occurs(Lower(line), v.identifier)
  {
    vs := [];
    var left := words;
    while left != {}
      invariant left <= words
      invariant forall id :: Count(vs, id) == if id in words && id !in left then |Hits(Lower(line), id, 0)| else 0
      invariant forall v :: v in vs ==> v.line == number && v.shown == line && v.identifier in words && Occurs(Lower(line), v.identifier)
    {
      var w :| w in left;
      var more := ScanWord(Lower(line), line, number, w);
      forall v | v in more ensures v == Violation(w, number, line) && Occurs(Lower(line), w) { RepeatPlaced(line, w, number, v); }
      forall id ensures Count(vs + more, id) == Count(vs, id) + if id == w then |Hits(Lower(line), w, 0)| else 0 {
        CountAppend(vs, more, id);
        CountRepeat(Violation(w, number, line), |Hits(Lower(line), w, 0)|, id);
      }
      vs, left := vs + more, left - {w};
    }
  }

  method ScanLines(lines: seq<string>, words: set<string>) returns (vs: seq<Violation>)
    requires AllWords(words)
    ensures forall id :: Count(vs, id) == if id in words then HitsIn(lines, id) else 0
    ensures forall v :: v in vs ==> v.identifier in words && WordPlaced(lines, v)
  {
    vs := [];
    for n := 0 to |lines|
      invariant forall id :: Count(vs, id) == if id in words then HitsIn(lines[..n], id) else 0
      invariant forall v :: v in vs ==> v.identifier in words && WordPlaced(lines, v)
    {
      var more := ScanLine(lines[n], n + 1, words);
      assert lines[..n + 1][..n] == lines[..n];
      CountAppendAll(vs, more);
      vs := vs + more;
    }
    assert lines[..|lines|] == lines;
  }

  function Newlines(s: string): (n: nat) {
    if s == "" then 0 else Newlines(s[..|s| - 1]) + (if s[|s| - 1] == '\n' then 1 else 0)
  }

  ghost predicate AllPhrases(ids: set<string>) {
    forall p :: p in ids ==> Split(p) != [] && Split(p)[0] != []
  }

  /** Every phrase in the whole text. */
  method ScanPhrases(text: string, phrases: set<string>) returns (vs: seq<Violation>)
    requires AllPhrases(phrases)
    ensures forall id :: Count(vs, id) == if id in phrases then |FindAll(Lower(text), Split(id), 0)| else 0
    ensures forall v :: v in vs ==> v.identifier in phrases && PhrasePlaced(text, v)
  {
    vs := [];
    var left := phrases;
    while left != {}
      invariant left <= phrases
      invariant forall id :: Count(vs, id) == if id in phrases && id !in left then |FindAll(Lower(text), Split(id), 0)| else 0
      invariant forall v :: v in vs ==> v.identifier in phrases && PhrasePlaced(text, v)
    {
      var p :| p in left;
      var matches := FindAll(Lower(text), Split(p), 0);
      InRange(text, p);
      var more := ScanPhrase(text, p, matches);
      AllPlaced(text, p, more);
      CountAppendAll(vs, more);
      vs, left := vs + more, left - {p};
    }
  }

  lemma InRange(text: string, p: string)
    requires Split(p) != [] && Split(p)[0] != []
    ensures forall i :: 0 <= i < |FindAll(Lower(text), Split(p), 0)| ==>
              var m := FindAll(Lower(text), Split(p), 0)[i]; m.0 < m.1 <= |text| && Spelled(Lower(text), Split(p), m.0, m.1)
  {
    var ms := FindAll(Lower(text), Split(p), 0);
    forall i | 0 <= i < |ms| ensures ms[i].0 < ms[i].1 <= |text| && Spelled(Lower(text), Split(p), ms[i].0, ms[i].1) {
      FoundIsSpelled(Lower(text), Split(p), 0, i);
      SpelledEnd(Lower(text), ms[i].0, ms[i].1, Split(p));
    }
  }

  lemma AllPlaced(text: string, p: string, more: seq<Violation>)
    requires Split(p) != [] && Split(p)[0] != [] && |more| == |FindAll(Lower(text), Split(p), 0)|
    requires forall i :: 0 <= i < |more| ==>
               var m := FindAll(Lower(text), Split(p), 0)[i]; m.0 <= |text| && more[i] == PhraseViolation(text, p, m.0)
    ensures forall v :: v in more ==> v.identifier == p && PhrasePlaced(text, v)
  {
    InRange(text, p);
    forall i | 0 <= i < |more| ensures more[i].identifier == p && PhrasePlaced(text, more[i]) {
      var m := FindAll(Lower(text), Split(p), 0)[i];
      assert Spelled(Lower(text), Split(p), m.0, m.1);
    }
  }

  /** One report for each match, numbered by the line feeds before it. */
  method ScanPhrase(text: string, p: string, matches: seq<(nat, nat)>) returns (vs: seq<Violation>)
    requires forall i :: 0 <= i < |matches| ==> matches[i].0 <= |text|
    ensures |vs| == |matches|
    ensures forall i :: 0 <= i < |vs| ==> vs[i] == PhraseViolation(text, p, matches[i].0)
    ensures forall id :: Count(vs, id) == if id == p then |matches| else 0
  {
    vs := [];
    for i := 0 to |matches|
      invariant |vs| == i
      invariant forall k :: 0 <= k < i ==> vs[k] == PhraseViolation(text, p, matches[k].0)
      invariant forall id :: Count(vs, id) == if id == p then i else 0
    {
      var v := PhraseViolation(text, p, matches[i].0);
      forall id ensures Count(vs + [v], id) == Count(vs, id) + if id == p then 1 else 0 {
        CountAppend(vs, [v], id);
      }
      vs := vs + [v];
    }
  }

  /** How many reports a filtered identifier gets: one for each hit in a line, or for each match in the text. */
  function Reports(text: string, id: string): (n: nat) {
    if id == "" || Split(id) == [] then 0
    else if IsPhrase(id) then |FindAll(Lower(text), Split(id), 0)| else HitsIn(Lines(text), id)
  }

  /**
   The scan reports an identifier exactly when its words appear in the
   lower-cased text in order, with separators between them; a single word,
   exactly when it occurs anywhere, though the text is searched line by line.
   It reports it as often as there are hits or matches that do not overlap: a word
   on a line it occurs on; a phrase, by counting line feeds.
   */
  method ScanText(text: string, identifiers: set<string>) returns (vs: seq<Violation>)
    ensures forall id :: Count(vs, id) > 0 <==> id in Filtered(identifiers) && Split(id) != [] && Present(Lower(text), Split(id))
    ensures forall id :: Count(vs, id) == if id in Filtered(identifiers) then Reports(text, id) else 0
    ensures forall v :: v in vs ==> v.identifier in Filtered(identifiers)
    ensures forall v :: v in vs && !IsPhrase(v.identifier) ==> WordPlaced(Lines(text), v)
    ensures forall v :: v in vs && IsPhrase(v.identifier) ==> PhrasePlaced(text, v)
  {
    var ids := Filtered(identifiers);
    var words := set i | i in ids && !IsPhrase(i);
    var phrases := set i | i in ids && IsPhrase(i);
    forall id | id in ids ensures Split(id) != [] && Split(id)[0] != [] && id != "" { FilteredIs(identifiers, id); }
    var lines := Lines(text);
    var inLines := ScanLines(lines, words);
    var inText := ScanPhrases(text, phrases);
    vs := inLines + inText;
    forall id
      ensures Count(vs, id) == if id in ids then Reports(text, id) else 0
      ensures Count(vs, id) > 0 <==> id in ids && Split(id) != [] && Present(Lower(text), Split(id))
    {
      CountAppend(inLines, inText, id);
      if id in words {
        WordCounted(text, identifiers, id);
      } else if id in phrases {
        FilteredIs(identifiers, id);
        FoundIff(Lower(text), Split(id));
      }
    }
  }

  lemma {:induction false} HitsInIff(ls: seq<string>, w: string)
    requires w != []
    ensures HitsIn(ls, w) > 0 <==> InSomeLine(LowerAll(ls), w)
    decreases |ls|
  {
    if ls != [] {
      var n := |ls| - 1;
      HitsInIff(ls[..n], w);
      HitsIff(Lower(ls[n]), w);
      var lowered, front := LowerAll(ls), LowerAll(ls[..n]);
      assert forall k :: 0 <= k < n ==> lowered[k] == front[k];
      if InSomeLine(front, w) {
        var k :| 0 <= k < |front| && Occurs(front[k], w);
        assert Occurs(lowered[k], w);
      }
      if Occurs(Lower(ls[n]), w) { assert Occurs(lowered[n], w); }
    }
  }

  /** What the word scan counts is there exactly when the word occurs anywhere in the text. */
  lemma WordCounted(text: string, identifiers: set<string>, w: string)
    requires w in Filtered(identifiers) && !IsPhrase(w)
    ensures w != [] && Split(w) == [w] && (HitsIn(Lines(text), w) > 0 <==> Present(Lower(text), [w]))
  {
    FilteredIs(identifiers, w);
    HitsInIff(Lines(text), w);
    LowerLines(text);
    LineByLine(Lower(text), w);
    OneWordPresent(Lower(text), w);
  }
}
