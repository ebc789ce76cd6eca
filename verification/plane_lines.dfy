/** What a line of a plane file reads as, told from the line itself. */
module PlaneLines {
  import opened Base
  import opened P = PlaneEnv

  // ---------------------------------------------------------------- characters

  /** The line boundaries of `str.splitlines`. */
  lemma BreaksAre(c: char)
    ensures IsBreak(c) <==> c in "\n\r\U{0B}\U{0C}\U{1C}\U{1D}\U{1E}\U{85}\U{2028}\U{2029}"
  {
    var s := "\n\r\U{0B}\U{0C}\U{1C}\U{1D}\U{1E}\U{85}\U{2028}\U{2029}";
    assert |s| == 10;
    assert s[0] == '\n' && s[1] == '\r' && s[2] == '\U{0B}' && s[3] == '\U{0C}' && s[4] == '\U{1C}';
    assert s[5] == '\U{1D}' && s[6] == '\U{1E}' && s[7] == '\U{85}' && s[8] == '\U{2028}' && s[9] == '\U{2029}';
  }

  /** White space: the line boundaries, the blank and the tab, and the other separators of Unicode. */
  lemma SpacesAre(c: char)
    ensures IsSpace(c) <==> IsBreak(c) || c in " \t\U{1F}\U{A0}\U{1680}\U{202F}\U{205F}\U{3000}" || 0x2000 <= c as int <= 0x200A
  {
    var s := " \t\U{1F}\U{A0}\U{1680}\U{202F}\U{205F}\U{3000}";
    assert |s| == 8;
    assert s[0] == ' ' && s[1] == '\t' && s[2] == '\U{1F}' && s[3] == '\U{A0}';
    assert s[4] == '\U{1680}' && s[5] == '\U{202F}' && s[6] == '\U{205F}' && s[7] == '\U{3000}';
  }

  /** A line ends at any boundary; a carriage return and the line feed right after it are one. */
  lemma BreakThen(line: string, c: char, rest: string)
    requires OneLine(line) && IsBreak(c)
    ensures Lines(line + [c] + rest) == [line] + Lines(if c == '\r' && rest != "" && rest[0] == '\n' then rest[1..] else rest)
  {
    var s := line + [c] + rest;
    assert s[|line|] == c;
    assert FirstBreak(s) == |line| by {
      assert forall k :: 0 <= k < |line| ==> s[k] == line[k];
    }
    assert s[..|line|] == line && s[|line| + 1..] == rest;
    if rest != "" { assert s[|line| + 1] == rest[0] && s[|line| + 2..] == rest[1..]; }
  }

  /** The last line needs no boundary after it. */
  lemma LastUnended(line: string)
    requires OneLine(line)
    ensures Lines(line) == if line == "" then [] else [line]
  {
    if line != "" { assert FirstBreak(line) == |line| && line[..|line|] == line; }
  }

  // ---------------------------------------------------------------- stripping

  ghost predicate AllSpace(s: string) {
    forall i :: 0 <= i < |s| ==> IsSpace(s[i])
  }

  /** Nothing but white space around the core, which has none at its ends. */
  ghost predicate Around(before: string, core: string, after: string) {
    AllSpace(before) && AllSpace(after) && (core != "" ==> !IsSpace(core[0]) && !IsSpace(core[|core| - 1]))
  }

  ghost predicate Inside(s: string, core: string) {
    exists before, after :: s == before + core + after && Around(before, core, after)
  }

  lemma OneMore(s: string, a: string, b: string)
    requires s != "" && s[1..] == a + b
    ensures s == [s[0]] + a + b
  {
    assert s == [s[0]] + s[1..];
  }

  lemma {:induction false} LStripIs(s: string) returns (before: string)
    ensures s == before + LStrip(s) && AllSpace(before)
  {
    if s != "" && IsSpace(s[0]) {
      var rest := LStripIs(s[1..]);
      before := [s[0]] + rest;
      OneMore(s, rest, LStrip(s[1..]));
    } else {
      before := "";
    }
  }

  lemma {:induction false} RStripIs(s: string) returns (after: string)
    ensures s == RStrip(s) + after && AllSpace(after)
  {
    if s != "" && IsSpace(s[|s| - 1]) {
      var front := RStripIs(s[..|s| - 1]);
      after := front + [s[|s| - 1]];
      assert s == s[..|s| - 1] + [s[|s| - 1]];
    } else {
      after := "";
    }
  }

  lemma StripInside(s: string)
    ensures Inside(s, Strip(s))
  {
    var l := LStrip(s);
    var before := LStripIs(s);
    var after := RStripIs(l);
    assert s == before + Strip(s) + after;
    if Strip(s) != "" { assert Strip(s)[0] == l[0]; }
    assert Around(before, Strip(s), after);
  }

  lemma InsideOnce(s: string, a: string, b: string)
    requires Inside(s, a) && Inside(s, b)
    ensures a == b
  {
    var p, q :| s == p + a + q && Around(p, a, q);
    var u, v :| s == u + b + v && Around(u, b, v);
    CoreFrom(s, p, a, q, u, b, v);
    CoreFrom(s, u, b, v, p, a, q);
    if a != "" && b != "" {
      assert |p| == |u|;
      assert s[|p|..|p| + |a|] == a && s[|u|..|u| + |b|] == b;
    }
  }

  /** A core that is not empty starts no earlier and ends no later than any other. */
  lemma CoreFrom(s: string, p: string, a: string, q: string, u: string, b: string, v: string)
    requires s == p + a + q && Around(p, a, q) && s == u + b + v && Around(u, b, v)
    ensures b != "" ==> |p| <= |u| && a != "" && |u| + |b| <= |p| + |a|
  {
    if b != "" {
      assert s[|u|] == b[0] && s[|u| + |b| - 1] == b[|b| - 1];
      forall i | 0 <= i < |p| ensures IsSpace(s[i]) { assert s[i] == p[i]; }
      forall i | |p| + |a| <= i < |s| ensures IsSpace(s[i]) { assert s[i] == q[i - |p| - |a|]; }
    }
  }

  /** `str.strip`: exactly the core. */
  lemma StripIs(s: string, core: string)
    ensures Strip(s) == core <==> Inside(s, core)
  {
    StripInside(s);
    if Inside(s, core) { InsideOnce(s, core, Strip(s)); }
  }

  // ---------------------------------------------------------------- values

  /** A quote, up to the next one of its kind: whatever stands between is the value, and what follows is dropped. */
  lemma QuotedReads(raw: string, q: char, body: string, rest: string)
    requires q in {'"', '\''} && q !in body && Inside(raw, [q] + body + [q] + rest)
    ensures ParseValue(raw) == body
  {
    var val := [q] + body + [q] + rest;
    StripIs(raw, val);
    assert val[0] == q && val[|body| + 1] == q;
    forall k | 1 <= k < |body| + 1 ensures val[k] != q { assert val[k] == body[k - 1]; }
    var end := IndexOf(val, q, 1);
    assert !(end < |body| + 1) && !(|body| + 1 < end);
    assert val[1..end] == body;
  }

  /** The core stands `i` characters in, with nothing but `c` around it. */
  ghost predicate BareAt(s: string, c: char, core: string, i: int) {
    0 <= i <= i + |core| <= |s| && s[i..i + |core|] == core && (forall k :: 0 <= k < i ==> s[k] == c) &&
    forall k :: i + |core| <= k < |s| ==> s[k] == c
  }

  /** The text without `c` at its ends. */
  ghost predicate Bare(s: string, c: char, core: string) {
    (core != "" ==> core[0] != c && core[|core| - 1] != c) && exists i :: BareAt(s, c, core, i)
  }

  lemma {:induction false} StripCharIs(s: string, c: char)
    ensures Bare(s, c, StripChar(s, c))
    decreases |s|
  {
    var core := StripChar(s, c);
    if s != "" && s[0] == c {
      StripCharIs(s[1..], c);
      var i :| BareAt(s[1..], c, core, i);
      forall k | 0 <= k < i + 1 ensures s[k] == c { if k > 0 { assert s[1..][k - 1] == c; } }
      forall k | i + 1 + |core| <= k < |s| ensures s[k] == c { assert s[1..][k - 1] == c; }
      assert s[i + 1..i + 1 + |core|] == s[1..][i..i + |core|];
      assert BareAt(s, c, core, i + 1);
    } else if s != "" && s[|s| - 1] == c {
      var t := s[..|s| - 1];
      StripCharIs(t, c);
      var i :| BareAt(t, c, core, i);
      assert t == "" || t[0] == s[0];
      forall k | i + |core| <= k < |s| ensures s[k] == c { if k < |t| { assert t[k] == c; } }
      assert s[i..i + |core|] == t[i..i + |core|];
      assert BareAt(s, c, core, i);
    } else {
      assert BareAt(s, c, core, 0);
    }
  }

  /** A quote that is never closed: quotes are taken off the ends, double ones first. */
  lemma UnclosedReads(raw: string, q: char, body: string)
    requires q in {'"', '\''} && q !in body && Inside(raw, [q] + body)
    ensures exists mid :: Bare([q] + body, '"', mid) && Bare(mid, '\'', ParseValue(raw))
  {
    var val := [q] + body;
    StripIs(raw, val);
    assert val[0] == q;
    forall k | 1 <= k < |val| ensures val[k] != q { assert val[k] == body[k - 1]; }
    assert IndexOf(val, q, 1) == |val|;
    StripCharIs(val, '"');
    StripCharIs(StripChar(val, '"'), '\'');
  }

  /** A comment starts here: a `#` after a blank or a tab. */
  predicate CommentAt(s: string, i: int) {
    0 <= i < |s| - 1 && (s[i] == ' ' || s[i] == '\t') && s[i + 1] == '#'
  }

  lemma {:induction false} CutIs(s: string, a: char, i: int)
    requires 0 <= i < |s| - 1 && s[i] == a && s[i + 1] == '#' && forall k :: 0 <= k < i ==> !(s[k] == a && s[k + 1] == '#')
    ensures CutComment(s, a) == s[..i]
  {
    if i > 0 {
      CutIs(s[1..], a, i - 1);
      assert [s[0]] + s[1..][..i - 1] == s[..i];
    }
  }

  lemma CutNone(s: string, a: char)
    requires forall k :: 0 <= k < |s| - 1 ==> !(s[k] == a && s[k + 1] == '#')
    ensures CutComment(s, a) == s
  {
  }

  /** An unquoted value without a comment reads as it stands. */
  lemma PlainReads(raw: string, core: string)
    requires Inside(raw, core) && (core != "" ==> core[0] !in {'"', '\''}) && forall i :: !CommentAt(core, i)
    ensures ParseValue(raw) == core
  {
    StripIs(raw, core);
    forall k | 0 <= k < |core| - 1 ensures !(core[k] == ' ' && core[k + 1] == '#') && !(core[k] == '\t' && core[k + 1] == '#') {
      assert !CommentAt(core, k);
    }
    CutNone(core, ' ');
    CutNone(core, '\t');
  }

  /** One with a comment reads up to the first, without the white space before it. */
  lemma CommentReads(raw: string, core: string, i: int)
    requires Inside(raw, core) && core != "" && core[0] !in {'"', '\''}
    requires CommentAt(core, i) && forall k :: 0 <= k < i ==> !CommentAt(core, k)
    ensures exists after :: core[..i] == ParseValue(raw) + after && AllSpace(after)
    ensures ParseValue(raw) != "" ==> !IsSpace(ParseValue(raw)[|ParseValue(raw)| - 1])
  {
    StripIs(raw, core);
    FirstCut(core, i);
    var after := RStripIs(core[..i]);
  }

  lemma FirstCut(core: string, i: int)
    requires CommentAt(core, i) && forall k :: 0 <= k < i ==> !CommentAt(core, k)
    ensures CutComment(CutComment(core, ' '), '\t') == core[..i]
  {
    forall k | 0 <= k < i ensures !(core[k] == ' ' && core[k + 1] == '#') { assert !CommentAt(core, k); }
    if core[i] == ' ' {
      CutIs(core, ' ', i);
      var s := core[..i];
      forall k | 0 <= k < |s| - 1 ensures !(s[k] == '\t' && s[k + 1] == '#') { assert !CommentAt(core, k); }
      CutNone(s, '\t');
    } else {
      FirstBlank(core, i);
      var s := CutComment(core, ' ');
      assert |s| >= i + 2 && s == core[..|s|];
      forall k | 0 <= k < i ensures !(s[k] == '\t' && s[k + 1] == '#') { assert !CommentAt(core, k); }
      CutIs(s, '\t', i);
      assert s[..i] == core[..i];
    }
  }

  /** No blank before a `#` stands before the tab that does. */
  lemma FirstBlank(core: string, i: int)
    requires CommentAt(core, i) && core[i] == '\t' && forall k :: 0 <= k < i ==> !CommentAt(core, k)
    ensures |CutComment(core, ' ')| >= i + 2
  {
    if HasComment(core, ' ') {
      var j :| 0 <= j < |core| - 1 && core[j] == ' ' && core[j + 1] == '#';
      var m := LeastBlank(core, j);
      CutIs(core, ' ', m);
      assert CommentAt(core, m);
      assert m > i && m != i + 1;
    }
  }

  lemma {:induction false} LeastBlank(core: string, j: int) returns (m: int)
    requires 0 <= j < |core| - 1 && core[j] == ' ' && core[j + 1] == '#'
    ensures 0 <= m <= j && core[m] == ' ' && core[m + 1] == '#' && forall k :: 0 <= k < m ==> !(core[k] == ' ' && core[k + 1] == '#')
  {
    if k :| 0 <= k < j && core[k] == ' ' && core[k + 1] == '#' {
      m := LeastBlank(core, k);
    } else {
      m := j;
    }
  }

  // ---------------------------------------------------------------- lines

  /** The name a key stands for: without white space, and without a leading `export`. */
  ghost predicate NameOf(raw: string, name: string) {
    exists key :: Inside(raw, key) && if "export " <= key then Inside(key[7..], name) else name == key
  }

  lemma KeyReads(raw: string, name: string)
    ensures ParseKey(raw) == name <==> NameOf(raw, name)
  {
    var key := Strip(raw);
    StripIs(raw, key);
    if "export " <= key { StripIs(key[7..], name); }
    if NameOf(raw, name) {
      var k :| Inside(raw, k) && if "export " <= k then Inside(k[7..], name) else name == k;
      StripIs(raw, k);
    }
  }

  /** A blank line, a comment, and a line without `=` declare nothing. */
  lemma NothingDeclared(line: string, core: string)
    requires Inside(line, core) && (core == "" || core[0] == '#' || '=' !in core)
    ensures Pair(line) == None
  {
    StripIs(line, core);
    if '=' !in core { assert IndexOf(core, '=', 0) == |core|; }
  }

  /** Any other line declares what its name and value read as, if the name starts with VAULT, and else nothing. */
  lemma PairReads(line: string, key: string, value: string, name: string)
    requires Inside(line, key + "=" + value) && '=' !in key && (key + "=" + value)[0] != '#' && NameOf(key, name)
    ensures Pair(line) == if "VAULT" <= name then Some((name, ParseValue(value))) else None
  {
    var core := key + "=" + value;
    StripIs(line, core);
    KeyReads(key, name);
    assert core[|key|] == '=';
    forall k | 0 <= k < |key| ensures core[k] != '=' { assert core[k] == key[k]; }
    var eq := IndexOf(core, '=', 0);
    assert !(eq < |key|) && !(|key| < eq);
    assert core[..eq] == key && core[eq + 1..] == value;
  }

  type Declared = Option<(string, string)>

  function Pairs(ls: seq<string>): (ps: seq<Declared>) {
    seq(|ls|, i requires 0 <= i < |ls| => Pair(ls[i]))
  }

  predicate Declares(p: Declared, key: string) {
    p.Some? && p.value.0 == key
  }

  /** The last of the first `n` lines that declares a key. */
  function LastLine(ps: seq<Declared>, key: string, n: nat): (i: Option<nat>)
    requires n <= |ps|
    ensures i.Some? ==> i.value < n && Declares(ps[i.value], key) && forall j :: i.value < j < n ==> !Declares(ps[j], key)
    ensures i.None? ==> forall j :: 0 <= j < n ==> !Declares(ps[j], key)
  {
    if n == 0 then None else if Declares(ps[n - 1], key) then Some(n - 1) else LastLine(ps, key, n - 1)
  }

  lemma {:induction false} LastUpTo(ls: seq<string>, key: string, n: nat)
    requires n <= |ls|
    ensures match LastLine(Pairs(ls), key, n)
            case None => key !in ParseLines(ls[..n])
            case Some(i) => key in ParseLines(ls[..n]) && Pairs(ls)[i] == Some((key, ParseLines(ls[..n])[key]))
  {
    if n > 0 {
      LastUpTo(ls, key, n - 1);
      NextLine(ls, n - 1);
    }
  }

  /** A later line wins: a key is read off the last line that declares it, and is there only if one does. */
  lemma LastWins(text: string, key: string)
    ensures var ps := Pairs(Lines(text));
            match LastLine(ps, key, |ps|)
            case None => key !in Parse(text)
            case Some(i) => key in Parse(text) && ps[i] == Some((key, Parse(text)[key]))
  {
    var ls := Lines(text);
    LastUpTo(ls, key, |ls|);
    assert ls[..|ls|] == ls;
  }

  // ---------------------------------------------------------------- the written file

  /** The three lines that count, after the first. */
  lemma TextIs(addr: string, roleId: string, secretId: string)
    ensures exists note :: note != "" && note[0] == '#' && OneLine(note) &&
              PlaneText(addr, roleId, secretId)
                == note + "\n" + ("VAULT_ADDR=" + addr + "\n" + ("VAULT_ROLE_ID=" + roleId + "\n" + ("VAULT_SECRET_ID=" + secretId + "\n")))
  {
    P.Header();
    TailIs(addr, roleId, secretId);
  }

  lemma TailIs(addr: string, roleId: string, secretId: string)
    ensures Assign(ADDR, addr) == "VAULT_ADDR=" + addr
    ensures Assign(ROLE_ID, roleId) == "VAULT_ROLE_ID=" + roleId && Assign(SECRET_ID, secretId) == "VAULT_SECRET_ID=" + secretId
  {
    assert "VAULT_ADDR=" == "VAULT_ADDR" + "=";
    assert "VAULT_ROLE_ID=" == "VAULT_ROLE_ID" + "=";
    assert "VAULT_SECRET_ID=" == "VAULT_SECRET_ID" + "=";
  }
}
