/**
 The access-plane `.env` file: the text onboarding writes, and the parser every
 reader of such a file uses. Characters are Unicode scalar values; white space
 and line boundaries are Python's.
 */
module PlaneEnv {
  import opened Base

  type Env = map<string, string>

  // ---------------------------------------------------------------- characters

  predicate IsBreak(c: char) {
    c == '\n' || c == '\r' || '\U{0B}' <= c <= '\U{0C}' || '\U{1C}' <= c <= '\U{1E}'
    || c == '\U{85}' || '\U{2028}' <= c <= '\U{2029}'
  }

  predicate IsSpace(c: char) {
    c == ' ' || c == '\t' || IsBreak(c) || c == '\U{1F}' || c == '\U{A0}' || c == '\U{1680}'
    || '\U{2000}' <= c <= '\U{200A}' || c == '\U{202F}' || c == '\U{205F}' || c == '\U{3000}'
  }

  predicate IsQuote(c: char) { c == '"' || c == '\'' }

  function LStrip(s: string): (r: string)
    ensures |r| <= |s| && (r == "" || !IsSpace(r[0]))
  {
    if s != "" && IsSpace(s[0]) then LStrip(s[1..]) else s
  }

  function RStrip(s: string): (r: string)
    ensures |r| <= |s| && r == s[..|r|] && (r == "" || !IsSpace(r[|r| - 1]))
  {
    if s != "" && IsSpace(s[|s| - 1]) then RStrip(s[..|s| - 1]) else s
  }

  function Strip(s: string): (r: string)
    ensures |r| <= |s|
  {
    RStrip(LStrip(s))
  }

  function StripChar(s: string, c: char): (r: string)
    ensures |r| <= |s|
    ensures s != "" && s[0] == c ==> |r| < |s|
  {
    if s != "" && s[0] == c then StripChar(s[1..], c)
    else if s != "" && s[|s| - 1] == c then StripChar(s[..|s| - 1], c)
    else s
  }

  /** The first index at or after `from` where `s` holds `c`, or the length. */
  function IndexOf(s: string, c: char, from: nat): (i: nat)
    requires from <= |s|
    ensures from <= i <= |s|
    ensures i < |s| ==> s[i] == c
    ensures forall k :: from <= k < i ==> s[k] != c
    decreases |s| - from
  {
    if from == |s| || s[from] == c then from else IndexOf(s, c, from + 1)
  }

  // ---------------------------------------------------------------- parser

  function FirstBreak(s: string): (i: nat)
    ensures i <= |s|
    ensures i < |s| ==> IsBreak(s[i])
    ensures forall k :: 0 <= k < i ==> !IsBreak(s[k])
  {
    if s == "" || IsBreak(s[0]) then 0 else FirstBreak(s[1..]) + 1
  }

  /** What follows the boundary at `i`; CR LF is one boundary. */
  function AfterBreak(s: string, i: nat): (r: string)
    requires i < |s|
    ensures |r| < |s|
  {
    if s[i] == '\r' && i + 1 < |s| && s[i + 1] == '\n' then s[i + 2..] else s[i + 1..]
  }

  /** `str.splitlines`: a trailing boundary adds no empty line. */
  function Lines(s: string): (ls: seq<string>)
    decreases |s|
  {
    if s == "" then []
    else
      var i := FirstBreak(s);
      [s[..i]] + (if i == |s| then [] else Lines(AfterBreak(s, i)))
  }

  /** Everything before the first `a#`. */
  function CutComment(s: string, a: char): (r: string)
    ensures |r| <= |s| && r == s[..|r|]
    ensures |r| == |s| <==> !HasComment(s, a)
  {
    if |s| < 2 then s
    else if s[0] == a && s[1] == '#' then assert HasComment(s, a); ""
    else
      assert HasComment(s, a) <==> HasComment(s[1..], a) by {
        if HasComment(s, a) { var i :| 0 <= i < |s| - 1 && s[i] == a && s[i + 1] == '#'; assert s[1..][i - 1] == a && s[1..][i] == '#'; }
        if HasComment(s[1..], a) {
          var i :| 0 <= i < |s[1..]| - 1 && s[1..][i] == a && s[1..][i + 1] == '#';
          assert s[i + 1] == a && s[i + 2] == '#';
        }
      }
      [s[0]] + CutComment(s[1..], a)
  }

  ghost predicate HasComment(s: string, a: char) {
    exists i :: 0 <= i < |s| - 1 && s[i] == a && s[i + 1] == '#'
  }

  function ParseValue(raw: string): (v: string) {
    var val := Strip(raw);
    if val != "" && IsQuote(val[0]) then
      var end := IndexOf(val, val[0], 1);
      if end < |val| then val[1..end] else StripChar(StripChar(val, '"'), '\'')
    else
      var cut := CutComment(CutComment(val, ' '), '\t');
      if |cut| < |val| then RStrip(cut) else val
  }

  function ParseKey(raw: string): string {
    var key := Strip(raw);
    if "export " <= key then Strip(key[7..]) else key
  }

  /** The pair a line declares: none for blank lines, comments, lines without `=`, and other keys. */
  function Pair(line: string): (p: Option<(string, string)>) {
    var l := Strip(line);
    var eq := IndexOf(l, '=', 0);
    if l == "" || l[0] == '#' || eq == |l| then None
    else
      var key := ParseKey(l[..eq]);
      if "VAULT" <= key then Some((key, ParseValue(l[eq + 1..]))) else None
  }

  function ParseLine(line: string, out: Env): Env {
    match Pair(line)
    case None => out
    case Some(p) => out[p.0 := p.1]
  }

  function ParseLines(ls: seq<string>): (out: Env) {
    if ls == [] then map[] else ParseLine(ls[|ls| - 1], ParseLines(ls[..|ls| - 1]))
  }

  function Parse(text: string): Env {
    ParseLines(Lines(text))
  }

  lemma NextLine(ls: seq<string>, i: nat)
    requires i < |ls|
    ensures ParseLines(ls[..i + 1]) == ParseLine(ls[i], ParseLines(ls[..i]))
  {
    assert ls[..i + 1][..i] == ls[..i];
  }

  /** The loop as it runs: one dictionary, filled line by line, later lines winning. */
  method ParseEnvText(text: string) returns (out: Env)
    ensures out == Parse(text)
  {
    var lines := Lines(text);
    out := map[];
    var i := 0;
    while i < |lines|
      invariant 0 <= i <= |lines|
      invariant out == ParseLines(lines[..i])
    {
      NextLine(lines, i);
      var pair := Pair(lines[i]);
      if pair.Some? {
        out := out[pair.value.0 := pair.value.1];
      }
      i := i + 1;
    }
    assert lines[..|lines|] == lines;
  }

  // ---------------------------------------------------------------- printer

  const NOTE1 := "# Written by `acb on"
  const NOTE2 := "board --apply`. Mode"
  const NOTE3 := " 0600; do not commit."
  const HEADER := NOTE1 + (NOTE2 + NOTE3)
  const ADDR := "VAULT_ADDR"
  const ROLE_ID := "VAULT_ROLE_ID"
  const SECRET_ID := "VAULT_SECRET_ID"

  function Assign(key: string, value: string): string {
    key + "=" + value
  }

  function PlaneText(addr: string, roleId: string, secretId: string): string {
    HEADER + "\n" + (Assign(ADDR, addr) + "\n" + (Assign(ROLE_ID, roleId) + "\n" + (Assign(SECRET_ID, secretId) + "\n")))
  }

  // ---------------------------------------------------------------- round trip

  /** A value the file can carry: one line, no outer white space, no leading quote, no trailing comment. */
  ghost predicate Plain(v: string) {
    && (forall i :: 0 <= i < |v| ==> !IsBreak(v[i]))
    && (v != "" ==> !IsSpace(v[0]) && !IsSpace(v[|v| - 1]) && !IsQuote(v[0]))
    && !HasComment(v, ' ') && !HasComment(v, '\t')
  }

  ghost predicate OneLine(s: string) {
    forall i :: 0 <= i < |s| ==> !IsBreak(s[i])
  }

  lemma LinesCons(a: string, rest: string)
    requires OneLine(a)
    ensures Lines(a + "\n" + rest) == [a] + Lines(rest)
  {
    var s := a + "\n" + rest;
    assert s[|a|] == '\n';
    assert FirstBreak(s) == |a| by {
      assert forall k :: 0 <= k < |a| ==> s[k] == a[k];
    }
    assert s[..|a|] == a && s[|a| + 1..] == rest;
  }

  lemma LStripKeeps(s: string)
    requires s == "" || !IsSpace(s[0])
    ensures LStrip(s) == s
  {
  }

  lemma {:induction false} RStripAppend(a: string, v: string)
    requires a != "" && !IsSpace(a[|a| - 1])
    ensures RStrip(a + v) == a + RStrip(v)
  {
    if v == "" {
      assert a + v == a;
    } else {
      var s := a + v;
      assert s[|s| - 1] == v[|v| - 1];
      assert s[..|s| - 1] == a + v[..|v| - 1];
      if IsSpace(v[|v| - 1]) {
        RStripAppend(a, v[..|v| - 1]);
      }
    }
  }

  lemma {:induction false} StripRStrip(v: string)
    ensures Strip(RStrip(v)) == Strip(v)
  {
    if v != "" && IsSpace(v[0]) {
      if IsSpace(v[|v| - 1]) {
        StripRStrip(v[..|v| - 1]);
        StripSpaceEnd(v);
      } else {
        assert RStrip(v) == v;
      }
    } else {
      StripSpaceEnds(v);
    }
  }

  /** Stripping does not care about one more trailing space. */
  lemma {:induction false} StripSpaceEnd(v: string)
    requires v != "" && IsSpace(v[|v| - 1])
    ensures Strip(v[..|v| - 1]) == Strip(v)
  {
    if IsSpace(v[0]) {
      if |v| > 1 {
        StripSpaceEnd(v[1..]);
        assert v[1..][..|v| - 2] == v[..|v| - 1][1..];
      }
    }
  }

  lemma StripSpaceEnds(v: string)
    requires v == "" || !IsSpace(v[0])
    ensures Strip(RStrip(v)) == Strip(v)
  {
    var r := RStrip(v);
    if r != "" {
      assert r[0] == v[0];
    }
    RStripTwice(v);
  }

  lemma {:induction false} RStripTwice(v: string)
    ensures RStrip(RStrip(v)) == RStrip(v)
  {
  }

  ghost predicate VaultKey(key: string) {
    "VAULT" <= key && forall i :: 0 <= i < |key| ==> key[i] != '=' && !IsSpace(key[i])
  }

  lemma {:induction false} StripKey(key: string)
    requires key != "" && !IsSpace(key[0]) && !IsSpace(key[|key| - 1])
    ensures Strip(key) == key
  {
  }

  /** A written line parses to its key and the parse of its value. */
  lemma AssignParses(key: string, v: string)
    requires VaultKey(key)
    ensures Pair(Assign(key, v)) == Some((key, ParseValue(v)))
  {
    var l := AssignSplits(key, v);
    StripRStrip(v);
    SameValue(RStrip(v), v);
    KeyParses(key);
  }

  lemma SameValue(a: string, b: string)
    requires Strip(a) == Strip(b)
    ensures ParseValue(a) == ParseValue(b)
  {
  }

  lemma KeyParses(key: string)
    requires VaultKey(key)
    ensures ParseKey(key) == key
  {
    StripKey(key);
    assert "export "[0] == 'e' && key[0] == 'V';
  }

  lemma AssignSplits(key: string, v: string) returns (l: string)
    requires VaultKey(key)
    ensures l == Strip(Assign(key, v)) && |l| > |key| && l[0] == 'V'
    ensures IndexOf(l, '=', 0) == |key| && l[..|key|] == key && l[|key| + 1..] == RStrip(v)
  {
    var line := Assign(key, v);
    var head := key + "=";
    assert line == head + v && head[|head| - 1] == '=' && line[0] == key[0] == 'V';
    RStripAppend(head, v);
    l := Strip(line);
    assert l == head + RStrip(v);
    assert l[|key|] == '=';
    assert forall k :: 0 <= k < |key| ==> l[k] == key[k];
  }

  /** Reading a value back yields that value exactly when it is plain, given that it is on one line. */
  lemma ParseValueIff(v: string)
    requires OneLine(v)
    ensures ParseValue(v) == v <==> Plain(v)
  {
    var val := Strip(v);
    if Plain(v) {
      LStripKeeps(v);
      assert val == v;
    }
    if ParseValue(v) == v {
      assert |ParseValue(v)| <= |val| <= |v|;
      StripSame(v);
    }
  }

  lemma StripSame(v: string)
    ensures |Strip(v)| == |v| ==> Strip(v) == v && (v != "" ==> !IsSpace(v[0]) && !IsSpace(v[|v| - 1]))
  {
    if v != "" && IsSpace(v[0]) {
      assert |LStrip(v)| < |v|;
    }
  }

  lemma FourLines(l0: string, l1: string, l2: string, l3: string)
    requires OneLine(l0) && OneLine(l1) && OneLine(l2) && OneLine(l3)
    ensures Lines(l0 + "\n" + (l1 + "\n" + (l2 + "\n" + (l3 + "\n")))) == [l0, l1, l2, l3]
  {
    ThreeLines(l1, l2, l3);
    LinesMore(l0, l1 + "\n" + (l2 + "\n" + (l3 + "\n")), [l1, l2, l3]);
  }

  lemma ThreeLines(l1: string, l2: string, l3: string)
    requires OneLine(l1) && OneLine(l2) && OneLine(l3)
    ensures Lines(l1 + "\n" + (l2 + "\n" + (l3 + "\n"))) == [l1, l2, l3]
  {
    TwoLines(l2, l3);
    LinesMore(l1, l2 + "\n" + (l3 + "\n"), [l2, l3]);
  }

  lemma TwoLines(l2: string, l3: string)
    requires OneLine(l2) && OneLine(l3)
    ensures Lines(l2 + "\n" + (l3 + "\n")) == [l2, l3]
  {
    LinesLast(l3);
    LinesMore(l2, l3 + "\n", [l3]);
  }

  lemma LinesLast(a: string)
    requires OneLine(a)
    ensures Lines(a + "\n") == [a]
  {
    assert a + "\n" == a + "\n" + "";
    LinesCons(a, "");
  }

  lemma LinesMore(a: string, rest: string, ls: seq<string>)
    requires OneLine(a) && Lines(rest) == ls
    ensures Lines(a + "\n" + rest) == [a] + ls
  {
    LinesCons(a, rest);
  }

  lemma Keys()
    ensures VaultKey(ADDR) && VaultKey(ROLE_ID) && VaultKey(SECRET_ID)
  {
  }

  lemma Notes()
    ensures OneLine(NOTE1) && OneLine(NOTE2) && OneLine(NOTE3)
    ensures NOTE1[0] == '#' && NOTE3[|NOTE3| - 1] == '.'
  {
  }

  lemma Header()
    ensures OneLine(HEADER) && Pair(HEADER) == None
  {
    Notes();
    JoinedNotes(NOTE1, NOTE2, NOTE3);
  }

  lemma JoinedNotes(a: string, b: string, c: string)
    requires OneLine(a) && OneLine(b) && OneLine(c)
    requires a != "" && a[0] == '#' && c != "" && c[|c| - 1] == '.'
    ensures var h := a + (b + c); OneLine(h) && h[0] == '#' && Strip(h) == h
  {
    var h := a + (b + c);
    assert forall i :: 0 <= i < |h| ==> h[i] == if i < |a| then a[i] else if i < |a| + |b| then b[i - |a|] else c[i - |a| - |b|];
    StripKey(h);
  }

  lemma AssignOneLine(key: string, v: string)
    requires VaultKey(key) && OneLine(v)
    ensures OneLine(Assign(key, v))
  {
    forall i | 0 <= i < |Assign(key, v)| ensures !IsBreak(Assign(key, v)[i]) {
      assert Assign(key, v)[i] == if i < |key| then key[i] else if i == |key| then '=' else v[i - |key| - 1];
    }
  }

  ghost function Written(addr: string, roleId: string, secretId: string): Env {
    map[ADDR := addr, ROLE_ID := roleId, SECRET_ID := secretId]
  }

  lemma WrittenAt(addr: string, roleId: string, secretId: string)
    ensures var w := Written(addr, roleId, secretId);
            ADDR in w && w[ADDR] == addr && ROLE_ID in w && w[ROLE_ID] == roleId && SECRET_ID in w && w[SECRET_ID] == secretId
  {
  }

  lemma ParseAssign(ls: seq<string>, key: string, v: string)
    requires VaultKey(key)
    ensures ParseLines(ls + [Assign(key, v)]) == ParseLines(ls)[key := ParseValue(v)]
  {
    AssignParses(key, v);
    assert (ls + [Assign(key, v)])[..|ls|] == ls;
  }

  lemma FourParses(h: string, k1: string, v1: string, k2: string, v2: string, k3: string, v3: string)
    requires Pair(h) == None
    requires VaultKey(k1) && VaultKey(k2) && VaultKey(k3)
    ensures ParseLines([h] + [Assign(k1, v1)] + [Assign(k2, v2)] + [Assign(k3, v3)]) ==
            map[][k1 := ParseValue(v1)][k2 := ParseValue(v2)][k3 := ParseValue(v3)]
  {
    var ls: seq<string> := [h];
    assert ls[..0] == [] && ParseLines(ls) == map[];
    ParseAssign(ls, k1, v1);
    ParseAssign(ls + [Assign(k1, v1)], k2, v2);
    ParseAssign(ls + [Assign(k1, v1)] + [Assign(k2, v2)], k3, v3);
  }

  lemma OneLineParse(addr: string, roleId: string, secretId: string)
    requires OneLine(addr) && OneLine(roleId) && OneLine(secretId)
    ensures Parse(PlaneText(addr, roleId, secretId)) == Written(ParseValue(addr), ParseValue(roleId), ParseValue(secretId))
  {
    Keys();
    Header();
    AssignOneLine(ADDR, addr);
    AssignOneLine(ROLE_ID, roleId);
    AssignOneLine(SECRET_ID, secretId);
    ThreeAssigned(HEADER, ADDR, addr, ROLE_ID, roleId, SECRET_ID, secretId);
  }

  lemma ThreeAssigned(h: string, k1: string, v1: string, k2: string, v2: string, k3: string, v3: string)
    requires OneLine(h) && Pair(h) == None && VaultKey(k1) && VaultKey(k2) && VaultKey(k3)
    requires OneLine(Assign(k1, v1)) && OneLine(Assign(k2, v2)) && OneLine(Assign(k3, v3))
    ensures Parse(h + "\n" + (Assign(k1, v1) + "\n" + (Assign(k2, v2) + "\n" + (Assign(k3, v3) + "\n")))) ==
            map[][k1 := ParseValue(v1)][k2 := ParseValue(v2)][k3 := ParseValue(v3)]
  {
    var l1, l2, l3 := Assign(k1, v1), Assign(k2, v2), Assign(k3, v3);
    FourLines(h, l1, l2, l3);
    assert [h, l1, l2, l3] == [h] + [l1] + [l2] + [l3];
    FourParses(h, k1, v1, k2, v2, k3, v3);
  }

  // Values read from any text at all are on one line.

  lemma {:induction false} LineIsLine(s: string, k: nat)
    requires k < |Lines(s)|
    ensures OneLine(Lines(s)[k])
    decreases k
  {
    var i := FirstBreak(s);
    if k > 0 {
      LineIsLine(AfterBreak(s, i), k - 1);
    }
  }

  lemma {:induction false} LStripOneLine(s: string)
    requires OneLine(s)
    ensures OneLine(LStrip(s))
  {
    if s != "" && IsSpace(s[0]) {
      LStripOneLine(s[1..]);
    }
  }

  lemma {:induction false} StripCharOneLine(s: string, c: char)
    requires OneLine(s)
    ensures OneLine(StripChar(s, c))
    decreases |s|
  {
    if s != "" && s[0] == c {
      StripCharOneLine(s[1..], c);
    } else if s != "" && s[|s| - 1] == c {
      StripCharOneLine(s[..|s| - 1], c);
    }
  }

  lemma ParseValueOneLine(raw: string)
    requires OneLine(raw)
    ensures OneLine(ParseValue(raw))
  {
    LStripOneLine(raw);
    var val := Strip(raw);
    assert OneLine(val);
    StripCharOneLine(val, '"');
    StripCharOneLine(StripChar(val, '"'), '\'');
    var cut := CutComment(CutComment(val, ' '), '\t');
    assert cut == val[..|cut|];
  }

  lemma PairOneLine(line: string)
    requires OneLine(line)
    ensures Pair(line).Some? ==> OneLine(Pair(line).value.1)
  {
    LStripOneLine(line);
    var l := Strip(line);
    var eq := IndexOf(l, '=', 0);
    if eq < |l| {
      ParseValueOneLine(l[eq + 1..]);
    }
  }

  lemma {:induction false} ParsedOneLine(ls: seq<string>)
    requires forall l :: l in ls ==> OneLine(l)
    ensures forall k :: k in ParseLines(ls) ==> OneLine(ParseLines(ls)[k])
  {
    if ls != [] {
      var n := |ls| - 1;
      assert forall l :: l in ls[..n] ==> l in ls;
      ParsedOneLine(ls[..n]);
      assert ls[n] in ls;
      PairOneLine(ls[n]);
    }
  }

  /**
   The file gives back the three values it was written with exactly when each
   of them is plain: no line boundary, no outer white space, no leading quote,
   and no white space followed by `#`.
   */
  lemma RoundTrip(addr: string, roleId: string, secretId: string)
    ensures Parse(PlaneText(addr, roleId, secretId)) == Written(addr, roleId, secretId) <==>
            Plain(addr) && Plain(roleId) && Plain(secretId)
  {
    var read := Parse(PlaneText(addr, roleId, secretId));
    WrittenAt(addr, roleId, secretId);
    if read == Written(addr, roleId, secretId) {
      ReadOneLine(PlaneText(addr, roleId, secretId));
      assert OneLine(read[ADDR]) && OneLine(read[ROLE_ID]) && OneLine(read[SECRET_ID]);
    }
    if OneLine(addr) && OneLine(roleId) && OneLine(secretId) {
      OneLineParse(addr, roleId, secretId);
      WrittenAt(ParseValue(addr), ParseValue(roleId), ParseValue(secretId));
      ParseValueIff(addr);
      ParseValueIff(roleId);
      ParseValueIff(secretId);
    }
  }

  /** No value read from any text spans a line boundary. */
  lemma ReadOneLine(text: string)
    ensures forall k :: k in Parse(text) ==> OneLine(Parse(text)[k])
  {
    var ls := Lines(text);
    forall l | l in ls ensures OneLine(l) {
      var k :| 0 <= k < |ls| && ls[k] == l;
      LineIsLine(text, k);
    }
    ParsedOneLine(ls);
  }
}
