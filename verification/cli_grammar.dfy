/** The grammar of `acb exec`: what a line may be made of, in any order, and what every line reads as. */
module CliGrammar {
  import opened Base
  import opened ExecCli
  import P = PlaneEnv

  /** What can stand before the boundary. */
  datatype Item = Json | Manifest(flag: string, value: string) | Inline(value: string) | Id(cap: string)

  function Tokens(it: Item): (ts: seq<string>) {
    match it
    case Json => ["--json"]
    case Manifest(flag, value) => [flag, value]
    case Inline(value) => ["--manifest=" + value]
    case Id(cap) => [cap]
  }

  function Print(items: seq<Item>): (ts: seq<string>) {
    if items == [] then [] else Tokens(items[0]) + Print(items[1..])
  }

  /** `cred:` or `e2e:`, and then at least one character, none of them white space. */
  predicate IsId(s: string) {
    exists n :: 4 <= n <= 5 && n < |s| && s[..n] == (if n == 4 then "e2e:" else "cred:") && forall i :: n <= i < |s| ==> !P.IsSpace(s[i])
  }

  lemma IdIs(s: string)
    ensures IsId(s) <==> CapabilityId(s)
  {
    if StartsWith(s, "cred:") && NoSpace(s[5..]) {
      assert forall i :: 5 <= i < |s| ==> s[i] == s[5..][i - 5];
    }
    if StartsWith(s, "e2e:") && NoSpace(s[4..]) {
      assert forall i :: 4 <= i < |s| ==> s[i] == s[4..][i - 4];
    }
  }

  predicate ManifestFlag(tok: string) { tok in {"-m", "--manifest"} }

  predicate Dashed(tok: string) { tok != "" && tok[0] == '-' }

  predicate Inlined(tok: string) { |tok| >= 11 && tok[..11] == "--manifest=" }

  lemma TokenIs(tok: string)
    ensures Dashed(tok) <==> IsOption(tok)
    ensures Inlined(tok) <==> StartsWith(tok, MANIFEST_IS)
    ensures ManifestFlag(tok) <==> IsManifestFlag(tok)
    ensures tok == "--json" || ManifestFlag(tok) || Inlined(tok) ==> Dashed(tok)
    ensures IsId(tok) ==> !Dashed(tok)
  {
    if Dashed(tok) { assert tok[..1] == "-"; }
  }

  ghost predicate Options(items: seq<Item>) {
    forall i :: 0 <= i < |items| ==> !items[i].Id? && (items[i].Manifest? ==> ManifestFlag(items[i].flag))
  }

  ghost predicate Items(items: seq<Item>) {
    forall i :: 0 <= i < |items| ==> (items[i].Manifest? ==> ManifestFlag(items[i].flag)) && (items[i].Id? ==> IsId(items[i].cap))
  }

  /** No option of the command itself starts here. */
  ghost predicate Stops(rest: seq<string>) {
    rest != [] ==> rest[0] != "--json" && !Inlined(rest[0]) && (ManifestFlag(rest[0]) ==> |rest| == 1)
  }

  // ---------------------------------------------------------------- what items say

  function IdsOf(items: seq<Item>): (ids: seq<string>) {
    if items == [] then [] else IdsOf(items[..|items| - 1]) + match items[|items| - 1] case Id(cap) => [cap] case _ => []
  }

  predicate WantsJson(items: seq<Item>) { exists i :: 0 <= i < |items| && items[i].Json? }

  /** The manifest option that stands last is the one that counts. */
  ghost predicate ManifestIs(items: seq<Item>, value: Option<string>) {
    match value
    case None => forall i :: 0 <= i < |items| ==> !items[i].Manifest? && !items[i].Inline?
    case Some(v) =>
      exists i :: 0 <= i < |items| && (items[i].Manifest? || items[i].Inline?) && items[i].value == v &&
                  forall j :: i < j < |items| ==> !items[j].Manifest? && !items[j].Inline?
  }

  function Reading(st: State, it: Item): State {
    match it
    case Json => st.(json := true)
    case Manifest(_, value) => st.(manifest := Some(value))
    case Inline(value) => st.(manifest := Some(value))
    case Id(cap) => st.(caps := st.caps + [cap])
  }

  function After(st: State, items: seq<Item>): State {
    if items == [] then st else Reading(After(st, items[..|items| - 1]), items[|items| - 1])
  }

  ghost predicate Says(items: seq<Item>, st: State) {
    st.caps == IdsOf(items) && (st.json <==> WantsJson(items)) && ManifestIs(items, st.manifest)
  }

  lemma {:induction false} AfterSays(items: seq<Item>)
    ensures Says(items, After(START, items))
  {
    if items != [] {
      var n := |items| - 1;
      AfterSays(items[..n]);
      assert forall i :: 0 <= i < n ==> items[..n][i] == items[i];
      var last, front := items[n], After(START, items[..n]);
      if WantsJson(items) && !last.Json? { var i :| 0 <= i < |items| && items[i].Json?; assert items[..n][i].Json?; }
      if WantsJson(items[..n]) { var i :| 0 <= i < n && items[..n][i].Json?; assert items[i].Json?; }
      ManifestMore(items, front.manifest);
    }
  }

  lemma ManifestMore(items: seq<Item>, value: Option<string>)
    requires items != [] && ManifestIs(items[..|items| - 1], value)
    ensures var last := items[|items| - 1];
            ManifestIs(items, if last.Manifest? || last.Inline? then Some(last.value) else value)
  {
    var n := |items| - 1;
    var front, last := items[..n], items[n];
    assert forall i :: 0 <= i < n ==> front[i] == items[i];
    if !last.Manifest? && !last.Inline? && value.Some? {
      var i :| 0 <= i < n && (front[i].Manifest? || front[i].Inline?) && front[i].value == value.value &&
               forall j :: i < j < n ==> !front[j].Manifest? && !front[j].Inline?;
      assert items[i] == front[i];
    }
  }

  /** What one item, at the head of a line, does to the reading of it. */
  lemma OneRead(it: Item, rest: seq<string>, composed: bool, st: State)
    requires it.Manifest? ==> ManifestFlag(it.flag)
    requires it.Id? ==> IsId(it.cap) && composed
    ensures ReadHead(Tokens(it) + rest, composed, st) == ReadHead(rest, composed, Reading(st, it))
  {
    var ts := Tokens(it) + rest;
    TokenIs(ts[0]);
    assert ts[|Tokens(it)|..] == rest;
    match it
    case Inline(value) => assert ts[0][11..] == value;
    case Id(cap) => IdIs(cap);
    case _ =>
  }

  lemma {:induction false} ItemsRead(items: seq<Item>, rest: seq<string>, composed: bool, st: State)
    requires if composed then Items(items) else Options(items)
    ensures ReadHead(Print(items) + rest, composed, st) == ReadHead(rest, composed, After(st, items))
    decreases |items|
  {
    if items == [] {
      assert Print(items) + rest == rest;
    } else {
      var more := Print(items[1..]) + rest;
      assert Print(items) + rest == Tokens(items[0]) + more;
      OneRead(items[0], more, composed, st);
      ItemsRead(items[1..], rest, composed, Reading(st, items[0]));
      AfterFirst(st, items);
    }
  }

  lemma {:induction false} AfterFirst(st: State, items: seq<Item>)
    requires items != []
    ensures After(Reading(st, items[0]), items[1..]) == After(st, items)
  {
    if |items| > 1 {
      var n := |items| - 1;
      assert items[1..][..n - 1] == items[..n][1..] && items[..n][0] == items[0];
      AfterFirst(st, items[..n]);
    } else {
      assert items[..0] == [];
    }
  }

  // ---------------------------------------------------------------- every line is made of items

  /** What is left of a line when no more items can be taken off it; with a boundary, ids are items too. */
  ghost predicate Stuck(rest: seq<string>, composed: bool) {
    Stops(rest) && (rest != [] && composed ==> !IsId(rest[0]))
  }

  /** The item a line starts with, if it starts with one. */
  function FirstItem(head: seq<string>, composed: bool): Option<Item>
    requires head != []
  {
    var tok := head[0];
    if tok == "--json" then Some(Json)
    else if ManifestFlag(tok) then (if |head| >= 2 then Some(Manifest(tok, head[1])) else None)
    else if Inlined(tok) then Some(Inline(tok[11..]))
    else if composed && IsId(tok) then Some(Id(tok)) else None
  }

  lemma FirstOff(head: seq<string>, composed: bool)
    requires head != []
    ensures var it := FirstItem(head, composed);
            if it.Some? then |Tokens(it.value)| <= |head| && head == Tokens(it.value) + head[|Tokens(it.value)|..] &&
                             if composed then Items([it.value]) else Options([it.value])
            else Stuck(head, composed)
  {
    var tok := head[0];
    if Inlined(tok) { assert "--manifest=" + tok[11..] == tok; }
    TokenIs(tok);
  }

  lemma PrintCons(it: Item, items: seq<Item>, rest: seq<string>)
    ensures Print([it] + items) + rest == Tokens(it) + (Print(items) + rest)
  {
    assert ([it] + items)[1..] == items;
  }

  /** Every line is items, and then something that is none. */
  lemma {:induction false} Splits(head: seq<string>, composed: bool) returns (items: seq<Item>, rest: seq<string>)
    ensures head == Print(items) + rest && Stuck(rest, composed) && if composed then Items(items) else Options(items)
    decreases |head|
  {
    items, rest := [], head;
    assert Print([]) + head == head;
    if head != [] {
      FirstOff(head, composed);
      var it := FirstItem(head, composed);
      if it.Some? {
        var more, left := Splits(head[|Tokens(it.value)|..], composed);
        PrintCons(it.value, more, left);
        items, rest := [it.value] + more, left;
        assert forall i :: 0 < i < |items| ==> items[i] == more[i - 1];
        assert items[0] == [it.value][0];
      }
    }
  }

  // ---------------------------------------------------------------- what every line reads as

  ghost predicate Twice(ids: seq<string>) {
    exists i, j :: 0 <= i < j < |ids| && ids[i] == ids[j]
  }

  /** A line that was read to its end: at least one id, a command, and no id twice; tested in this order. */
  ghost predicate Checked(p: Parsed, items: seq<Item>, ids: seq<string>, command: seq<string>) {
    if ids == [] then p == Error(NoCapability)
    else if command == [] then p == Error(NoCommand)
    else if Twice(ids) then p == Error(Repeated)
    else p.Run? && p.caps == ids && p.command == command && (p.json <==> WantsJson(items)) && ManifestIs(items, p.manifest)
  }

  lemma CheckIs(items: seq<Item>, st: State, command: seq<string>)
    requires (st.json <==> WantsJson(items)) && ManifestIs(items, st.manifest)
    ensures Checked(Check(st, command), items, st.caps, command)
  {
  }

  ghost predicate Helps(ts: seq<string>) {
    "-h" in ts || "--help" in ts
  }

  lemma HelpIs(ts: seq<string>)
    ensures Helps(ts) <==> AsksHelp(ts)
  {
    if AsksHelp(ts) {
      var i :| 0 <= i < |ts| && IsHelp(ts[i]);
      assert ts[i] in ts;
    }
  }

  /**
   Every line with a boundary: items in any order, whatever is not one, and the
   command. Help is given if it is asked for anywhere before the boundary; else
   what is not an item decides, as a flag without its value, an unknown option, or
   no capability's id; else the items are taken together, and checked.
   */
  lemma ComposedReads(items: seq<Item>, rest: seq<string>, command: seq<string>)
    requires Items(items) && Stuck(rest, true) && BOUNDARY !in Print(items) + rest
    ensures var p := Parse(Print(items) + rest + [BOUNDARY] + command);
            if Helps(Print(items) + rest) then p == Help
            else if rest == [] then Checked(p, items, IdsOf(items), command)
            else p == Error(if ManifestFlag(rest[0]) then MissingValue else if Dashed(rest[0]) then UnknownOption else NotACapability)
  {
    var head := Print(items) + rest;
    BoundaryAt(head, command);
    HelpIs(head);
    ItemsRead(items, rest, true, START);
    AfterSays(items);
    if rest == [] {
      CheckIs(items, After(START, items), command);
    } else {
      TokenIs(rest[0]);
      IdIs(rest[0]);
    }
  }

  lemma {:induction false} OptionsOnly(items: seq<Item>)
    requires Options(items)
    ensures IdsOf(items) == []
  {
    if items != [] { OptionsOnly(items[..|items| - 1]); }
  }

  /** Reading on in the old form, once there is a capability: options, and then the command, whatever it starts with. */
  lemma CommandRead(items: seq<Item>, rest: seq<string>, st: State)
    requires Options(items) && Stuck(rest, false) && st.caps != [] && After(st, items).caps == st.caps
    ensures ReadHead(Print(items) + rest, false, st) ==
            if rest == [] then Ok((After(st, items), None))
            else if ManifestFlag(rest[0]) then Raised(MissingValue)
            else Ok((After(st, items), Some(rest)))
  {
    ItemsRead(items, rest, false, st);
    if rest != [] { TokenIs(rest[0]); }
  }

  lemma {:induction false} AfterCaps(st: State, items: seq<Item>)
    requires Options(items)
    ensures After(st, items).caps == st.caps
  {
    if items != [] { AfterCaps(st, items[..|items| - 1]); }
  }

  lemma {:induction false} AfterBoth(st: State, a: seq<Item>, b: seq<Item>)
    ensures After(st, a + b) == After(After(st, a), b)
    decreases |b|
  {
    if b == [] {
      assert a + b == a;
    } else {
      var n := |b| - 1;
      assert (a + b)[..|a| + n] == a + b[..n];
      AfterBoth(st, a, b[..n]);
    }
  }

  /**
   Every line without a boundary, up to its capability: options in any order, and
   then nothing, a flag without its value, or an unknown option.
   */
  lemma OldReads(items: seq<Item>, rest: seq<string>)
    requires Options(items) && Stuck(rest, false) && (rest != [] ==> Dashed(rest[0])) && BOUNDARY !in Print(items) + rest
    ensures var p := Parse(Print(items) + rest);
            if Helps(Print(items) + rest) then p == Help
            else p == Error(if rest == [] then NoCapability else if ManifestFlag(rest[0]) then MissingValue else UnknownOption)
  {
    var head := Print(items) + rest;
    HelpIs(head);
    ItemsRead(items, rest, false, START);
    AfterCaps(START, items);
    if rest != [] { TokenIs(rest[0]); }
  }

  lemma CapRead(items: seq<Item>, cap: string, tail: seq<string>)
    requires Options(items) && !Dashed(cap)
    ensures ReadHead(Print(items) + [cap] + tail, false, START) == ReadHead(tail, false, After(START, items).(caps := [cap]))
  {
    assert Print(items) + [cap] + tail == Print(items) + ([cap] + tail);
    ItemsRead(items, [cap] + tail, false, START);
    AfterCaps(START, items);
    TokenIs(cap);
    assert ([cap] + tail)[1..] == tail && [] + [cap] == [cap];
  }

  lemma RestRead(items: seq<Item>, cap: string, more: seq<Item>, rest: seq<string>)
    requires Options(items) && Options(more) && !Dashed(cap) && Stuck(rest, false)
    ensures var st := After(START, items + more).(caps := [cap]);
            ReadHead(Print(items) + [cap] + (Print(more) + rest), false, START) ==
            if rest == [] then Ok((st, None)) else if ManifestFlag(rest[0]) then Raised(MissingValue) else Ok((st, Some(rest)))
  {
    var st := After(START, items);
    CapRead(items, cap, Print(more) + rest);
    AfterCaps(st.(caps := [cap]), more);
    CommandRead(more, rest, st.(caps := [cap]));
    CapsAside(st, more, [cap]);
    AfterBoth(START, items, more);
  }

  lemma NoBoundary(line: seq<string>)
    requires BOUNDARY !in line
    ensures Parse(line) == ParseSplit(line, false, [])
  {
  }

  /**
   And beyond it: the first token that is no option is the capability, whatever it
   looks like; options may follow it still; the command is all that is left.
   */
  lemma OldRuns(items: seq<Item>, cap: string, more: seq<Item>, rest: seq<string>)
    requires Options(items) && Options(more) && !Dashed(cap) && Stuck(rest, false)
    requires BOUNDARY !in Print(items) + [cap] + (Print(more) + rest)
    ensures var line := Print(items) + [cap] + (Print(more) + rest);
            var p := Parse(line);
            if Helps(line) then p == Help
            else if rest != [] && ManifestFlag(rest[0]) then p == Error(MissingValue)
            else Checked(p, items + more, [cap], rest)
  {
    var line := Print(items) + [cap] + (Print(more) + rest);
    NoBoundary(line);
    HelpIs(line);
    RestRead(items, cap, more, rest);
    AfterSays(items + more);
    CheckIs(items + more, After(START, items + more).(caps := [cap]), rest);
  }

  lemma {:induction false} CapsAside(st: State, items: seq<Item>, caps: seq<string>)
    requires Options(items)
    ensures After(st.(caps := caps), items) == After(st, items).(caps := caps)
  {
    if items != [] { CapsAside(st, items[..|items| - 1], caps); }
  }
}
