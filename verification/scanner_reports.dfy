/** What the scan's reports are worth: which occurrences get one, and which line they name. */
module ScannerReports {
  import opened Base
  import opened P = PlaneEnv
  import opened Scanner

  // ---------------------------------------------------------------- every occurrence

  ghost predicate Apart(s: string, w: string) {
    forall i: nat, j: nat :: i < j && At(s, w, i) && At(s, w, j) ==> i + |w| <= j
  }

  ghost predicate AllReported(s: string, w: string)
    requires w != []
  {
    forall k: nat :: At(s, w, k) ==> k in Hits(s, w, 0)
  }

  /** Every occurrence of a word is reported exactly when no two of them overlap. */
  lemma AllReportedIff(s: string, w: string)
    requires w != []
    ensures AllReported(s, w) <==> Apart(s, w)
  {
    if Apart(s, w) {
      forall k: nat | At(s, w, k) ensures k in Hits(s, w, 0) {
        var i := EveryOccurrence(s, w, 0, k);
        HitIsAt(s, w, 0, i);
      }
    }
    if AllReported(s, w) {
      forall i: nat, j: nat | i < j && At(s, w, i) && At(s, w, j) ensures i + |w| <= j {
        ReportedApart(s, w, i, j);
      }
    }
  }

  lemma ReportedApart(s: string, w: string, i: nat, j: nat)
    requires w != [] && i < j && i in Hits(s, w, 0) && j in Hits(s, w, 0)
    ensures i + |w| <= j
  {
    var hs := Hits(s, w, 0);
    var a :| 0 <= a < |hs| && hs[a] == i;
    var b :| 0 <= b < |hs| && hs[b] == j;
    if a < b { HitsApart(s, w, 0, a, b); } else if b < a { HitsApart(s, w, 0, b, a); }
  }

  /** A proper beginning of the word that is also its end. */
  ghost predicate Bordered(w: string) {
    exists b :: 0 < b < |w| && Border(w, b)
  }

  predicate Border(w: string, b: nat)
    requires b <= |w|
  {
    w[..b] == w[|w| - b..]
  }

  lemma OverlapIsBorder(s: string, w: string, i: nat, j: nat)
    requires At(s, w, i) && At(s, w, j) && i < j < i + |w|
    ensures Bordered(w)
  {
    var b := i + |w| - j;
    forall k | 0 <= k < b ensures w[k] == w[|w| - b + k] {
      AtChar(s, w, j, k);
      AtChar(s, w, i, |w| - b + k);
    }
    assert w[..b] == w[|w| - b..];
    assert Border(w, b);
  }

  /** A word written over its own end. */
  function Doubled(w: string, b: nat): (s: string)
    requires b <= |w|
  {
    w + w[b..]
  }

  lemma BorderOverlaps(w: string, b: nat)
    requires 0 < b < |w| && Border(w, b)
    ensures At(Doubled(w, b), w, 0) && At(Doubled(w, b), w, |w| - b)
  {
    var s, n := Doubled(w, b), |w| - b;
    assert s[0..0 + |w|] == w;
    forall k | 0 <= k < |w| ensures s[n + k] == w[k] {
      if k < b { assert w[n..][k] == w[..b][k]; } else { assert s[n + k] == w[b..][n + k - |w|]; }
    }
    assert s[n..n + |w|] == w;
  }

  /** So a word has all its occurrences reported in every text exactly when it has no border. */
  lemma AlwaysReportedIff(w: string)
    requires w != []
    ensures (forall s :: AllReported(s, w)) <==> !Bordered(w)
  {
    if b :| 0 < b < |w| && Border(w, b) {
      BorderOverlaps(w, b);
      AllReportedIff(Doubled(w, b), w);
      assert !Apart(Doubled(w, b), w);
    } else {
      forall s ensures AllReported(s, w) {
        forall i: nat, j: nat | i < j && At(s, w, i) && At(s, w, j) ensures i + |w| <= j {
          if j < i + |w| { OverlapIsBorder(s, w, i, j); }
        }
        AllReportedIff(s, w);
      }
    }
  }

  /** In "abababab", "ababab" occurs at 0 and at 2, and only the first is reported. */
  lemma OverlapMissed()
    ensures var s, w := "abababab", "ababab";
            At(s, w, 0) && At(s, w, 2) && Hits(s, w, 0) == [0]
  {
    var s, w := "abababab", "ababab";
    assert s[0..6] == w && s[2..8] == w;
    assert Find(s, w, 0) == Some(0);
    assert Find(s, w, 6).None?;
  }

  // ---------------------------------------------------------------- every phrase

  /** The phrase is spelled from `i` on; `PhraseEnd` is where the matcher then stops. */
  predicate Starts(s: string, ws: seq<string>, i: nat)
    requires ws != []
  {
    MatchAt(s, i, ws).Some?
  }

  function PhraseEnd(s: string, ws: seq<string>, i: nat): nat
    requires ws != [] && Starts(s, ws, i)
  {
    MatchAt(s, i, ws).value
  }

  /** What is found is spelled from its start to its end, and each stands after the one before. */
  lemma {:induction false} FoundStarts(s: string, ws: seq<string>, start: nat, n: nat)
    requires ws != [] && n < |FindAll(s, ws, start)|
    ensures var m := FindAll(s, ws, start)[n]; start <= m.0 < m.1 && Starts(s, ws, m.0) && m.1 == PhraseEnd(s, ws, m.0)
    decreases |s| - start
  {
    if start <= |s| {
      match MatchAt(s, start, ws)
      case Some(e) => if n > 0 && e > start { FoundStarts(s, ws, e, n - 1); }
      case None => FoundStarts(s, ws, start + 1, n);
    }
  }

  lemma {:induction false} FoundApart(s: string, ws: seq<string>, start: nat, a: nat, b: nat)
    requires ws != [] && a < b < |FindAll(s, ws, start)|
    ensures FindAll(s, ws, start)[a].1 <= FindAll(s, ws, start)[b].0
    decreases |s| - start
  {
    if start <= |s| {
      match MatchAt(s, start, ws)
      case Some(e) =>
        if e > start { if a == 0 { FoundStarts(s, ws, e, b - 1); } else { FoundApart(s, ws, e, a - 1, b - 1); } }
      case None => FoundApart(s, ws, start + 1, a, b);
    }
  }

  /** No spelling is missed: each starts where one that is found starts, or inside it. */
  lemma {:induction false} EveryStart(s: string, ws: seq<string>, start: nat, k: nat) returns (n: nat)
    requires ws != [] && ws[0] != [] && start <= k && Starts(s, ws, k)
    ensures n < |FindAll(s, ws, start)| && FindAll(s, ws, start)[n].0 <= k < FindAll(s, ws, start)[n].1
    decreases |s| - start
  {
    StartsWithin(s, ws, k);
    match MatchAt(s, start, ws)
    case Some(e) =>
      StartsWithin(s, ws, start);
      if k < e { n := 0; } else { n := EveryStart(s, ws, e, k); n := n + 1; }
    case None => n := EveryStart(s, ws, start + 1, k);
  }

  lemma StartsWithin(s: string, ws: seq<string>, i: nat)
    requires ws != [] && ws[0] != [] && Starts(s, ws, i)
    ensures i < PhraseEnd(s, ws, i) <= |s|
  {
    MatchIsSpelled(s, i, ws);
    MatchEnd(s, i, PhraseEnd(s, ws, i), ws);
  }

  ghost predicate PhrasesApart(s: string, ws: seq<string>)
    requires ws != []
  {
    forall i: nat, j: nat :: i < j && Starts(s, ws, i) && Starts(s, ws, j) ==> PhraseEnd(s, ws, i) <= j
  }

  ghost predicate Found(s: string, ws: seq<string>, i: nat)
    requires ws != []
  {
    exists n :: 0 <= n < |FindAll(s, ws, 0)| && FindAll(s, ws, 0)[n].0 == i
  }

  /** Every spelling of a phrase is found exactly when none starts inside another. */
  lemma AllFoundIff(s: string, ws: seq<string>)
    requires ws != [] && ws[0] != []
    ensures (forall i: nat :: Starts(s, ws, i) ==> Found(s, ws, i)) <==> PhrasesApart(s, ws)
  {
    if PhrasesApart(s, ws) {
      forall i: nat | Starts(s, ws, i) ensures Found(s, ws, i) {
        var n := EveryStart(s, ws, 0, i);
        FoundStarts(s, ws, 0, n);
      }
    }
    if forall i: nat :: Starts(s, ws, i) ==> Found(s, ws, i) {
      forall i: nat, j: nat | i < j && Starts(s, ws, i) && Starts(s, ws, j) ensures PhraseEnd(s, ws, i) <= j {
        FoundInOrder(s, ws, i, j);
      }
    }
  }

  lemma FoundInOrder(s: string, ws: seq<string>, i: nat, j: nat)
    requires ws != [] && i < j && Found(s, ws, i) && Found(s, ws, j)
    ensures Starts(s, ws, i) && PhraseEnd(s, ws, i) <= j
  {
    var a :| 0 <= a < |FindAll(s, ws, 0)| && FindAll(s, ws, 0)[a].0 == i;
    var b :| 0 <= b < |FindAll(s, ws, 0)| && FindAll(s, ws, 0)[b].0 == j;
    FoundStarts(s, ws, 0, a);
    FoundStarts(s, ws, 0, b);
    if a < b { FoundApart(s, ws, 0, a, b); } else if b < a { FoundApart(s, ws, 0, b, a); }
  }

  /** In a text that says a word three times, a phrase of it twice starts twice, and is found once. */
  lemma PhraseMissed(w: string)
    requires Word(w) && (forall k :: 0 <= k < |w| ==> !IsSeparator(w[k]))
    ensures var s, ws := w + [' '] + w + [' '] + w, [w, w];
            && Starts(s, ws, 0) && Starts(s, ws, |w| + 1) && Found(s, ws, 0) && !Found(s, ws, |w| + 1)
  {
    var s, ws, n := w + [' '] + w + [' '] + w, [w, w], |w|;
    Thrice(w, 0);
    Thrice(w, n + 1);
    var first := EveryStart(s, ws, 0, 0);
    if Found(s, ws, n + 1) { FoundInOrder(s, ws, 0, n + 1); }
  }

  lemma Thrice(w: string, i: nat)
    requires Word(w) && (forall k :: 0 <= k < |w| ==> !IsSeparator(w[k])) && (i == 0 || i == |w| + 1)
    ensures var s, ws := w + [' '] + w + [' '] + w, [w, w];
            Starts(s, ws, i) && PhraseEnd(s, ws, i) == i + 2 * |w| + 1
  {
    var s, m := w + [' '] + w + [' '] + w, i + |w|;
    assert s[i..m] == w && s[m + 1..m + 1 + |w|] == w && s[m] == ' ';
    assert s[m + 1..m + 1 + |w|][0] == w[0];
    TwiceAt(s, w, i);
  }

  lemma TwiceAt(s: string, w: string, i: nat)
    requires w != [] && At(s, w, i) && At(s, w, i + |w| + 1) && s[i + |w|] == ' ' && !IsSeparator(s[i + |w| + 1])
    ensures Starts(s, [w, w], i) && PhraseEnd(s, [w, w], i) == i + 2 * |w| + 1
  {
    var m := i + |w|;
    assert SeparatorRun(s, m) == 1;
    assert [w, w][1..] == [w];
    assert MatchAt(s, m + 1, [w]) == Some(m + 1 + |w|);
    assert MatchAfter(s, m, 1, [w]) == Some(m + 1 + |w|);
  }

  // ---------------------------------------------------------------- lines

  /** The first line boundary at or after `from`, or the end. */
  function NextBreak(s: string, from: nat): (b: nat)
    requires from <= |s|
    ensures from <= b <= |s| && (b < |s| ==> IsBreak(s[b]))
    ensures forall k :: from <= k < b ==> !IsBreak(s[k])
    decreases |s| - from
  {
    if from == |s| || IsBreak(s[from]) then from else NextBreak(s, from + 1)
  }

  /** The character at `i` stands on line `n`, counted over the line boundaries after `from`. */
  ghost predicate OnLine(s: string, from: nat, i: nat, n: nat)
    requires from <= i < |s|
    decreases n
  {
    var b := NextBreak(s, from);
    if n == 0 then i < b else b < |s| && BreakEnd(s, b) <= i && OnLine(s, BreakEnd(s, b), i, n - 1)
  }

  /** How many line boundaries end after `from` and before `i`. */
  function Boundaries(s: string, from: nat, i: nat): (n: nat)
    requires from <= i <= |s|
    decreases |s| - from
  {
    var b := NextBreak(s, from);
    if i <= b || i < BreakEnd(s, b) then 0 else 1 + Boundaries(s, BreakEnd(s, b), i)
  }

  lemma InBreak(s: string, b: nat, i: nat)
    requires b <= i < |s| && IsBreak(s[b]) && i < BreakEnd(s, b)
    ensures IsBreak(s[i])
  {
  }

  lemma PastBreak(s: string, from: nat, i: nat)
    requires from <= i < |s| && !IsBreak(s[i]) && NextBreak(s, from) <= i
    ensures NextBreak(s, from) < i && BreakEnd(s, NextBreak(s, from)) <= i
  {
    if i < BreakEnd(s, NextBreak(s, from)) { InBreak(s, NextBreak(s, from), i); }
  }

  /** A character stands on exactly the line that the boundaries before it say. */
  lemma {:induction false} OnLineIff(s: string, from: nat, i: nat, n: nat)
    requires from <= i < |s| && !IsBreak(s[i])
    ensures OnLine(s, from, i, n) <==> n == Boundaries(s, from, i)
    decreases |s| - from
  {
    var b := NextBreak(s, from);
    if b <= i {
      PastBreak(s, from, i);
      if n > 0 { OnLineIff(s, BreakEnd(s, b), i, n - 1); }
    }
  }

  /** The boundary at `k` is a line feed, alone or after a carriage return. */
  predicate LineFeed(s: string, k: nat)
    requires k < |s|
  {
    s[k] == '\n' || (s[k] == '\r' && k + 1 < |s| && s[k + 1] == '\n')
  }

  /** Every boundary before `i` is a line feed. */
  ghost predicate OnlyLineFeeds(s: string, from: nat, i: nat)
    requires from <= i <= |s|
  {
    forall k :: from <= k < i && IsBreak(s[k]) ==> LineFeed(s, k)
  }

  function Feeds(s: string, from: nat, i: nat): (n: nat)
    requires from <= i <= |s|
    decreases i - from
  {
    if from == i then 0 else (if s[from] == '\n' then 1 else 0) + Feeds(s, from + 1, i)
  }

  lemma {:induction false} FeedsAre(s: string, from: nat, i: nat)
    requires from <= i <= |s|
    ensures Newlines(s[..i]) == Newlines(s[..from]) + Feeds(s, from, i)
    decreases i - from
  {
    if from < i {
      FeedsAre(s, from + 1, i);
      assert s[..from + 1][..from] == s[..from];
    }
  }

  lemma {:induction false} NoFeeds(s: string, from: nat, b: nat, i: nat)
    requires from <= b <= i <= |s| && forall k :: from <= k < b ==> !IsBreak(s[k])
    ensures Feeds(s, from, i) == Feeds(s, b, i)
    decreases b - from
  {
    if from < b { NoFeeds(s, from + 1, b, i); }
  }

  lemma BreakFeeds(s: string, b: nat, i: nat)
    requires b < |s| && IsBreak(s[b]) && BreakEnd(s, b) <= i <= |s|
    ensures Feeds(s, b, i) == (if LineFeed(s, b) then 1 else 0) + Feeds(s, BreakEnd(s, b), i)
  {
    if BreakEnd(s, b) == b + 2 { assert Feeds(s, b + 1, i) == 1 + Feeds(s, b + 2, i); }
  }

  lemma FeedsSplit(s: string, from: nat, i: nat)
    requires from <= i <= |s| && NextBreak(s, from) < i && BreakEnd(s, NextBreak(s, from)) <= i
    ensures var b := NextBreak(s, from);
            OnlyLineFeeds(s, from, i) <==> LineFeed(s, b) && OnlyLineFeeds(s, BreakEnd(s, b), i)
  {
    var b := NextBreak(s, from);
    if LineFeed(s, b) && OnlyLineFeeds(s, BreakEnd(s, b), i) {
      forall k | from <= k < i && IsBreak(s[k]) ensures LineFeed(s, k) {
        if k == b + 1 && k < BreakEnd(s, b) { assert s[k] == '\n'; }
      }
    }
  }

  /** Counting line feeds never counts too many, and counts right exactly when there is no other boundary. */
  lemma {:induction false} FeedsCount(s: string, from: nat, i: nat)
    requires from <= i < |s| && !IsBreak(s[i])
    ensures Feeds(s, from, i) <= Boundaries(s, from, i)
    ensures Feeds(s, from, i) == Boundaries(s, from, i) <==> OnlyLineFeeds(s, from, i)
    decreases |s| - from
  {
    var b := NextBreak(s, from);
    if i < b {
      NoFeeds(s, from, i, i);
    } else {
      PastBreak(s, from, i);
      FeedsCount(s, BreakEnd(s, b), i);
      NoFeeds(s, from, b, i);
      BreakFeeds(s, b, i);
      FeedsSplit(s, from, i);
    }
  }

  // ---------------------------------------------------------------- lines of the text

  lemma {:induction false} FirstIsNext(s: string, from: nat)
    requires from <= |s|
    ensures from + FirstBreak(s[from..]) == NextBreak(s, from)
  {
    var rest, b := s[from..], FirstBreak(s[from..]);
    forall k | 0 <= k < |rest| ensures rest[k] == s[from + k] { }
    assert !(from + b < NextBreak(s, from)) && !(NextBreak(s, from) < from + b);
  }

  /** The lines after `from`. */
  function LineTexts(s: string, from: nat): (ls: seq<string>)
    requires from <= |s|
    decreases |s| - from
  {
    if from == |s| then [] else
    var b := NextBreak(s, from);
    [s[from..b]] + (if b == |s| then [] else LineTexts(s, BreakEnd(s, b)))
  }

  lemma {:induction false} LinesAre(s: string, from: nat)
    requires from <= |s|
    ensures Lines(s[from..]) == LineTexts(s, from)
    decreases |s| - from
  {
    if from < |s| {
      var b := NextBreak(s, from);
      LinesFrom(s, from, b);
      if b < |s| { LinesAre(s, BreakEnd(s, b)); }
    }
  }

  lemma LinesFrom(s: string, from: nat, b: nat)
    requires from < |s| && b == NextBreak(s, from)
    ensures Lines(s[from..]) == [s[from..b]] + (if b == |s| then [] else Lines(s[BreakEnd(s, b)..]))
  {
    FirstIsNext(s, from);
    if b == |s| { LastLine(s, from); } else { LineThen(s, from, b); }
  }

  lemma LastLine(s: string, from: nat)
    requires from < |s| && FirstBreak(s[from..]) == |s| - from
    ensures Lines(s[from..]) == [s[from..|s|]] + []
  {
    LinesStep(s[from..], |s| - from, |s| - from);
    assert s[from..][..|s| - from] == s[from..|s|];
  }

  lemma LineThen(s: string, from: nat, b: nat)
    requires from <= b < |s| && FirstBreak(s[from..]) == b - from
    ensures Lines(s[from..]) == [s[from..b]] + Lines(s[BreakEnd(s, b)..])
  {
    EndShifts(s, from, b);
    assert s[from..][..b - from] == s[from..b];
    FirstAndRest(s[from..], b - from, s[from..b], s[BreakEnd(s, b)..]);
  }

  lemma FirstAndRest(s: string, i: nat, first: string, rest: string)
    requires FirstBreak(s) == i < |s| && s[..i] == first && s[BreakEnd(s, i)..] == rest
    ensures Lines(s) == [first] + Lines(rest)
  {
    LinesStep(s, i, BreakEnd(s, i));
  }

  lemma EndShifts(s: string, from: nat, b: nat)
    requires from <= b < |s|
    ensures from + BreakEnd(s[from..], b - from) == BreakEnd(s, b)
    ensures s[from..][BreakEnd(s[from..], b - from)..] == s[BreakEnd(s, b)..]
  {
    var rest := s[from..];
    assert rest[b - from] == s[b];
    if b + 1 < |s| { assert rest[b - from + 1] == s[b + 1]; }
  }

  /** Standing on line `n` is standing within the text of that line, where the text holds it. */
  lemma {:induction false} OnLineStands(s: string, from: nat, i: nat, n: nat) returns (start: nat, end: nat)
    requires from <= i < |s| && OnLine(s, from, i, n)
    ensures n < |LineTexts(s, from)| && from <= start <= i < end <= |s| && LineTexts(s, from)[n] == s[start..end]
    decreases n
  {
    var b := NextBreak(s, from);
    if n == 0 {
      start, end := from, b;
    } else {
      start, end := OnLineStands(s, BreakEnd(s, b), i, n - 1);
      ConsAt(s[from..b], LineTexts(s, BreakEnd(s, b)), n);
    }
  }

  lemma ConsAt(first: string, rest: seq<string>, n: nat)
    requires 0 < n <= |rest|
    ensures |[first] + rest| == 1 + |rest| && ([first] + rest)[n] == rest[n - 1]
  {
  }

  // ---------------------------------------------------------------- where a phrase is reported

  lemma StartIsText(text: string, id: string, i: nat, j: nat)
    requires Split(id) != [] && Spelled(Lower(text), Split(id), i, j)
    ensures i < |text| && !IsBreak(text[i])
  {
    SplitWords(id);
    var w := Split(id)[0];
    assert Word(w);
    AtChar(Lower(text), w, i, 0);
    LowerBreak(text[i]);
    assert Lower(text)[i] == LowerChar(text[i]);
  }

  /**
   A phrase that starts at `i` is reported on the line it starts on, and that
   line is shown, if and only if every line boundary before it is a line feed.
   */
  lemma PhraseLineIff(text: string, id: string, i: nat, j: nat)
    requires Split(id) != [] && Spelled(Lower(text), Split(id), i, j) && i < |text|
    ensures var v := PhraseViolation(text, id, i);
            && (OnLine(text, 0, i, v.line - 1) <==> OnlyLineFeeds(text, 0, i))
            && (OnlyLineFeeds(text, 0, i) ==> v.line <= |Lines(text)| && v.shown == Lines(text)[v.line - 1])
            && v.line - 1 <= Boundaries(text, 0, i)
  {
    StartIsText(text, id, i, j);
    CountedLine(text, i);
  }

  lemma CountedLine(text: string, i: nat)
    requires i < |text| && !IsBreak(text[i])
    ensures var n := Newlines(text[..i]);
            && (OnLine(text, 0, i, n) <==> OnlyLineFeeds(text, 0, i)) && n <= Boundaries(text, 0, i)
            && (OnlyLineFeeds(text, 0, i) ==> n < |Lines(text)|)
  {
    var n := Newlines(text[..i]);
    FeedsAre(text, 0, i);
    assert Newlines(text[..0]) == 0;
    FeedsCount(text, 0, i);
    OnLineIff(text, 0, i, n);
    if OnlyLineFeeds(text, 0, i) {
      var start, end := OnLineStands(text, 0, i, n);
      LinesAre(text, 0);
      assert text[0..] == text;
    }
  }

  /** After a form feed the line before is named and shown. */
  lemma FormFeedMisplaces(first: string, ws: seq<string>, id: string)
    requires Scanner.OneLine(first) && ws != [] && Words(ws) && id == Joined(ws) && Lower(id) == id
    ensures var text := first + ['\U{0C}'] + id;
            && Spelled(Lower(text), Split(id), |first| + 1, |text|)
            && PhraseViolation(text, id, |first| + 1) == Violation(id, 1, first)
            && |first| + 1 < |text| && !OnLine(text, 0, |first| + 1, 0)
  {
    var text := first + ['\U{0C}'] + id;
    FormFeedSpelled(first, ws, id, text);
    StartIsText(text, id, |first| + 1, |text|);
    FormFeedLine(first, id, text);
  }

  lemma FormFeedSpelled(first: string, ws: seq<string>, id: string, text: string)
    requires ws != [] && Words(ws) && id == Joined(ws) && Lower(id) == id && text == first + ['\U{0C}'] + id
    ensures Split(id) == ws && Spelled(Lower(text), ws, |first| + 1, |text|)
  {
    SplitJoined(ws);
    LowerAppends(first + ['\U{0C}'], id);
    JoinedSpelled(Lower(first + ['\U{0C}']), ws);
  }

  lemma LowerAppends(a: string, b: string)
    ensures Lower(a + b) == Lower(a) + Lower(b)
  {
  }

  lemma FormFeedLine(first: string, id: string, text: string)
    requires Scanner.OneLine(first) && id != "" && text == first + ['\U{0C}'] + id
    ensures Newlines(text[..|first| + 1]) == 0 && Shown(Lines(text), 1) == first && !OnLine(text, 0, |first| + 1, 0)
  {
    var n := |first|;
    forall k | 0 <= k < n ensures text[k] == first[k] { }
    assert IsBreak(text[n]) && text[n] != '\n' && text[n] != '\r';
    assert NextBreak(text, 0) == n;
    FeedsAre(text, 0, n + 1);
    assert Newlines(text[..0]) == 0;
    NoFeeds(text, 0, n, n + 1);
    assert Feeds(text, n, n + 1) == 0;
    LinesFrom(text, 0, n);
    assert text[0..] == text && text[0..n] == first;
  }

  lemma {:induction false} JoinedSpelled(before: string, ws: seq<string>)
    requires ws != []
    ensures Spelled(before + Joined(ws), ws, |before|, |before + Joined(ws)|)
    decreases |ws|
  {
    var text := before + Joined(ws);
    if |ws| == 1 {
      assert text[|before|..|before| + |ws[0]|] == ws[0];
    } else {
      var rest := Joined(ws[1..]);
      var front := before + ws[0] + [' '];
      assert text == before + (ws[0] + ([' '] + rest) + "");
      FirstWord(before, ws[0], [' '], rest, "", text);
      assert text == front + rest;
      JoinedSpelled(front, ws[1..]);
    }
  }

  // ---------------------------------------------------------------- what counts as the same

  /** A letter and its capital. */
  predicate SameLetter(a: char, b: char) {
    a == b || ('A' <= a <= 'Z' && b as int == a as int + 32) || ('A' <= b <= 'Z' && a as int == b as int + 32)
  }

  predicate SameButCase(s: string, t: string) {
    |s| == |t| && forall i :: 0 <= i < |s| ==> SameLetter(s[i], t[i])
  }

  lemma LettersFold(a: char, b: char)
    ensures LowerChar(a) == LowerChar(b) <==> SameLetter(a, b)
  {
    assert 'A' <= a <= 'Z' ==> LowerChar(a) as int == a as int + 32;
    assert 'A' <= b <= 'Z' ==> LowerChar(b) as int == b as int + 32;
  }

  /** Texts are searched, and identifiers compared, exactly up to the case of their letters. */
  lemma CaseAside(s: string, t: string)
    ensures Lower(s) == Lower(t) <==> SameButCase(s, t)
  {
    if |s| == |t| {
      assert forall i :: 0 <= i < |s| ==> Lower(s)[i] == LowerChar(s[i]) && Lower(t)[i] == LowerChar(t[i]);
      forall i | 0 <= i < |s| ensures LowerChar(s[i]) == LowerChar(t[i]) <==> SameLetter(s[i], t[i]) { LettersFold(s[i], t[i]); }
    }
  }

  /** Between the words of a phrase: dots, underscores, hyphens and white space, which takes in the line boundaries. */
  lemma SeparatorsAre(c: char)
    ensures IsSeparator(c) <==> c in {'.', '_', '-'} || IsBreak(c) || c in {' ', '\t'} || (IsSpace(c) && c > '\U{1E}')
  {
  }

  /** An identifier is looked for exactly when it is one of the entries, spaced singly and in small letters, and four characters or more. */
  lemma KeptIff(raw: set<string>, id: string)
    ensures id in Filtered(raw) <==> |id| >= 4 && exists r :: r in raw && id == Joined(Split(Lower(r)))
  {
  }
}
