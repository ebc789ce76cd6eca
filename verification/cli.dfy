/** Splitting the tokens of `acb exec`: options and capabilities before the first `--`, the child's command after it. */
module ExecCli {
  import opened Base
  import P = PlaneEnv

  datatype Fault = MissingValue | UnknownOption | NotACapability | NoCapability | NoCommand | Repeated

  datatype Parsed = Help | Error(fault: Fault) | Run(manifest: Option<string>, caps: seq<string>, command: seq<string>, json: bool)

  /** What the loop has read so far. */
  datatype State = State(manifest: Option<string>, caps: seq<string>, json: bool)

  const BOUNDARY: string := "--"
  const MANIFEST_IS: string := "--manifest="

  predicate StartsWith(s: string, p: string) { |p| <= |s| && s[..|p|] == p }

  predicate NoSpace(s: string) { s != [] && forall i :: 0 <= i < |s| ==> !P.IsSpace(s[i]) }

  /** `(cred|e2e):\S+` */
  predicate CapabilityId(s: string) {
    (StartsWith(s, "cred:") && NoSpace(s[5..])) || (StartsWith(s, "e2e:") && NoSpace(s[4..]))
  }

  predicate IsOption(s: string) { StartsWith(s, "-") }

  predicate IsHelp(s: string) { s == "-h" || s == "--help" }

  predicate IsManifestFlag(s: string) { s == "-m" || s == "--manifest" }

  // ---------------------------------------------------------------- what the tokens mean

  /** Reading on from a state; None for the command when the tokens run out without one starting. */
  function ReadHead(head: seq<string>, composed: bool, st: State): (r: Outcome<(State, Option<seq<string>>), Fault>)
    decreases |head|
  {
    if head == [] then Ok((st, None))
    else
      var tok := head[0];
      if tok == "--json" then ReadHead(head[1..], composed, st.(json := true))
      else if IsManifestFlag(tok) then
        if |head| < 2 then Raised(MissingValue) else ReadHead(head[2..], composed, st.(manifest := Some(head[1])))
      else if StartsWith(tok, MANIFEST_IS) then ReadHead(head[1..], composed, st.(manifest := Some(tok[|MANIFEST_IS|..])))
      else if IsOption(tok) && (composed || st.caps == []) then Raised(UnknownOption)
      else if !composed && st.caps != [] then Ok((st, Some(head)))
      else if composed && !CapabilityId(tok) then Raised(NotACapability)
      else ReadHead(head[1..], composed, st.(caps := st.caps + [tok]))
  }

  const START: State := State(None, [], false)

  ghost predicate Distinct(caps: seq<string>) {
    forall i, j :: 0 <= i < j < |caps| ==> caps[i] != caps[j]
  }

  predicate HasRepeat(caps: seq<string>) {
    exists i, j :: 0 <= i < j < |caps| && caps[i] == caps[j]
  }

  function Check(st: State, command: seq<string>): Parsed {
    if st.caps == [] then Error(NoCapability)
    else if command == [] then Error(NoCommand)
    else if HasRepeat(st.caps) then Error(Repeated)
    else Run(st.manifest, st.caps, command, st.json)
  }

  predicate AsksHelp(head: seq<string>) { exists i :: 0 <= i < |head| && IsHelp(head[i]) }

  function ParseSplit(head: seq<string>, composed: bool, tail: seq<string>): Parsed {
    if AsksHelp(head) then Help
    else match ReadHead(head, composed, START)
      case Raised(f) => Error(f)
      case Ok((st, None)) => Check(st, tail)
      case Ok((st, Some(command))) => Check(st, command)
  }

  function Index(raw: seq<string>, tok: string): (i: nat)
    ensures i <= |raw| && (i < |raw| <==> tok in raw)
    ensures i < |raw| ==> raw[i] == tok
    ensures forall k :: 0 <= k < i ==> raw[k] != tok
  {
    if raw == [] || raw[0] == tok then 0
    else
      assert tok in raw <==> tok in raw[1..];
      1 + Index(raw[1..], tok)
  }

  function Parse(raw: seq<string>): (p: Parsed) {
    var sep := Index(raw, BOUNDARY);
    if sep < |raw| then ParseSplit(raw[..sep], true, raw[sep + 1..]) else ParseSplit(raw, false, [])
  }

  // ---------------------------------------------------------------- the loop

  method ParseExec(raw: seq<string>) returns (p: Parsed)
    ensures p == Parse(raw)
  {
    var sep := Index(raw, BOUNDARY);
    var composed := sep < |raw|;
    var head, command := raw, [];
    if composed {
      head, command := raw[..sep], raw[sep + 1..];
    }
    if AsksHelp(head) {
      return Help;
    }
    var manifest: Option<string> := None;
    var caps: seq<string> := [];
    var json := false;
    var fault: Option<Fault> := None;
    var i := 0;
    ghost var given := command;
    assert head[0..] == head;
    while i < |head|
      invariant 0 <= i <= |head| && command == given
      invariant ReadHead(head, composed, START) == ReadHead(head[i..], composed, State(manifest, caps, json))
      invariant fault == None
    {
      var tok := head[i];
      assert head[i..][0] == tok && head[i..][1..] == head[i + 1..];
      assert i + 1 < |head| ==> head[i..][1] == head[i + 1] && head[i..][2..] == head[i + 2..];
      if tok == "--json" {
        json := true;
        i := i + 1;
        continue;
      }
      if IsManifestFlag(tok) {
        if i + 1 >= |head| {
          fault := Some(MissingValue);
          break;
        }
        manifest := Some(head[i + 1]);
        i := i + 2;
        continue;
      }
      if StartsWith(tok, MANIFEST_IS) {
        manifest := Some(tok[|MANIFEST_IS|..]);
        i := i + 1;
        continue;
      }
      if composed && IsOption(tok) {
        fault := Some(UnknownOption);
        break;
      }
      if IsOption(tok) && caps == [] {
        fault := Some(UnknownOption);
        break;
      }
      if !composed && caps != [] {
        command := head[i..];
        break;
      }
      if composed && !CapabilityId(tok) {
        fault := Some(NotACapability);
        break;
      }
      caps := caps + [tok];
      i := i + 1;
    }
    if fault.Some? {
      return Error(fault.value);
    }
    p := Check(State(manifest, caps, json), command);
  }

  // ---------------------------------------------------------------- the boundary

  function WithCommand(p: Parsed, command: seq<string>): Parsed {
    if p.Run? then p.(command := command) else p
  }

  lemma BoundaryAt(head: seq<string>, tail: seq<string>)
    requires BOUNDARY !in head
    ensures Parse(head + [BOUNDARY] + tail) == ParseSplit(head, true, tail)
  {
    var raw := head + [BOUNDARY] + tail;
    var sep := Index(raw, BOUNDARY);
    assert raw[|head|] == BOUNDARY;
    forall k | 0 <= k < |head| ensures raw[k] != BOUNDARY { assert raw[k] == head[k]; }
    assert sep == |head|;
    assert raw[..sep] == head && raw[sep + 1..] == tail;
  }

  lemma {:induction false} ComposedEnds(head: seq<string>, st: State)
    ensures var r := ReadHead(head, true, st); r.Ok? ==> r.value.1 == None
    decreases |head|
  {
    if head != [] {
      var tok := head[0];
      if tok == "--json" {
        ComposedEnds(head[1..], st.(json := true));
      } else if IsManifestFlag(tok) {
        if |head| >= 2 { ComposedEnds(head[2..], st.(manifest := Some(head[1]))); }
      } else if StartsWith(tok, MANIFEST_IS) {
        ComposedEnds(head[1..], st.(manifest := Some(tok[|MANIFEST_IS|..])));
      } else if !IsOption(tok) && CapabilityId(tok) {
        ComposedEnds(head[1..], st.(caps := st.caps + [tok]));
      }
    }
  }

  /**
   With a `--`, nothing after it is looked at: two command lines that agree up
   to the first `--` parse alike, and each one's command is exactly what stands
   after its own.
   */
  lemma BoundaryDecides(head: seq<string>, first: seq<string>, second: seq<string>)
    requires BOUNDARY !in head && first != [] && second != []
    ensures Parse(head + [BOUNDARY] + second) == WithCommand(Parse(head + [BOUNDARY] + first), second)
    ensures var p := Parse(head + [BOUNDARY] + first); p.Run? ==> p.command == first
  {
    BoundaryAt(head, first);
    BoundaryAt(head, second);
    ComposedEnds(head, START);
  }

  // ---------------------------------------------------------------- rendering

  function Flags(manifest: Option<string>, json: bool): seq<string> {
    (if json then ["--json"] else []) + (if manifest.Some? then ["-m", manifest.value] else [])
  }

  function Render(manifest: Option<string>, caps: seq<string>, command: seq<string>, json: bool): seq<string> {
    Flags(manifest, json) + caps + [BOUNDARY] + command
  }

  lemma CapIsPlain(c: string)
    requires CapabilityId(c)
    ensures c != "--json" && !IsManifestFlag(c) && !StartsWith(c, MANIFEST_IS) && !IsOption(c) && !IsHelp(c) && c != BOUNDARY
  {
    assert c[0] == 'c' || c[0] == 'e';
  }

  ghost predicate AllCaps(caps: seq<string>) {
    forall i :: 0 <= i < |caps| ==> CapabilityId(caps[i])
  }

  lemma {:induction false} CapsRead(caps: seq<string>, st: State)
    requires AllCaps(caps)
    ensures ReadHead(caps, true, st) == Ok((st.(caps := st.caps + caps), None))
    decreases |caps|
  {
    if caps == [] {
      assert st.caps + [] == st.caps;
    } else {
      CapIsPlain(caps[0]);
      CapsRead(caps[1..], st.(caps := st.caps + [caps[0]]));
      assert st.caps + [caps[0]] + caps[1..] == st.caps + caps;
    }
  }

  lemma FlagsRead(manifest: Option<string>, json: bool, caps: seq<string>)
    ensures ReadHead(Flags(manifest, json) + caps, true, START) == ReadHead(caps, true, State(manifest, [], json))
  {
    var m := if manifest.Some? then ["-m", manifest.value] else [];
    assert Flags(manifest, false) + caps == m + caps;
    if manifest.Some? {
      assert (m + caps)[2..] == caps;
    } else {
      assert m + caps == caps;
    }
    if json {
      assert (Flags(manifest, true) + caps)[1..] == m + caps;
    } else {
      assert Flags(manifest, false) + caps == m + caps;
    }
  }

  /** A value an option can carry: not the boundary, and not a request for help. */
  predicate Carried(manifest: Option<string>) {
    manifest.Some? ==> manifest.value != BOUNDARY && !IsHelp(manifest.value)
  }

  lemma HeadIsClean(manifest: Option<string>, json: bool, caps: seq<string>)
    requires AllCaps(caps) && Carried(manifest)
    ensures var head := Flags(manifest, json) + caps; BOUNDARY !in head && !AsksHelp(head)
  {
    var flags := Flags(manifest, json);
    forall k | 0 <= k < |flags + caps| ensures (flags + caps)[k] != BOUNDARY && !IsHelp((flags + caps)[k]) {
      if k < |flags| {
        assert flags[k] == "--json" || flags[k] == "-m" || (manifest.Some? && flags[k] == manifest.value);
      } else {
        CapIsPlain(caps[k - |flags|]);
      }
    }
  }

  lemma RenderedReads(manifest: Option<string>, caps: seq<string>, command: seq<string>, json: bool)
    requires Carried(manifest) && AllCaps(caps) && Distinct(caps) && caps != [] && command != []
    ensures Parse(Render(manifest, caps, command, json)) == Run(manifest, caps, command, json)
  {
    HeadIsClean(manifest, json, caps);
    BoundaryAt(Flags(manifest, json) + caps, command);
    FlagsRead(manifest, json, caps);
    CapsRead(caps, State(manifest, [], json));
    assert [] + caps == caps;
  }

  lemma {:induction false} ReadCapsAreIds(head: seq<string>, st: State)
    requires AllCaps(st.caps)
    ensures var r := ReadHead(head, true, st); r.Ok? ==> AllCaps(r.value.0.caps)
    decreases |head|
  {
    if head != [] {
      var tok := head[0];
      if tok == "--json" {
        ReadCapsAreIds(head[1..], st.(json := true));
      } else if IsManifestFlag(tok) {
        if |head| >= 2 { ReadCapsAreIds(head[2..], st.(manifest := Some(head[1]))); }
      } else if StartsWith(tok, MANIFEST_IS) {
        ReadCapsAreIds(head[1..], st.(manifest := Some(tok[|MANIFEST_IS|..])));
      } else if !IsOption(tok) && CapabilityId(tok) {
        ReadCapsAreIds(head[1..], st.(caps := st.caps + [tok]));
      }
    }
  }

  /** Every checkout a composed command line asks for is a distinct, well-formed id that stood before the boundary. */
  lemma OnlyIds(raw: seq<string>)
    requires BOUNDARY in raw
    ensures var p := Parse(raw); p.Run? ==> AllCaps(p.caps) && Distinct(p.caps) && p.caps != [] && p.command != []
  {
    var head := raw[..Index(raw, BOUNDARY)];
    ReadCapsAreIds(head, START);
    ComposedEnds(head, START);
  }

  lemma NotCarried(manifest: Option<string>, caps: seq<string>, command: seq<string>, json: bool)
    requires !Carried(manifest)
    ensures !Parse(Render(manifest, caps, command, json)).Run?
  {
    var raw := Render(manifest, caps, command, json);
    var n := if json then 1 else 0;
    assert raw[n] == "-m" && raw[n + 1] == manifest.value;
    var sep := Index(raw, BOUNDARY);
    if manifest.value == BOUNDARY {
      assert forall k :: 0 <= k <= n ==> raw[k] != BOUNDARY;
      assert sep == n + 1;
      OnlyFlag(raw[..sep], json);
    } else {
      assert BOUNDARY in raw by { assert raw[|Flags(manifest, json) + caps|] == BOUNDARY; }
      assert forall k :: 0 <= k <= n + 1 ==> raw[k] != BOUNDARY;
      assert sep > n + 1;
      assert raw[..sep][n + 1] == manifest.value;
    }
  }

  lemma OnlyFlag(head: seq<string>, json: bool)
    requires head == (if json then ["--json", "-m"] else ["-m"])
    ensures ReadHead(head, true, START) == Raised(MissingValue)
  {
    if json {
      assert head[1..] == ["-m"];
    }
  }

  /**
   A rendered command line parses back to what was rendered, if and only if the
   manifest value is neither `--` nor a help flag, the ids are distinct, valid
   and at least one, and there is a command.
   */
  lemma RenderRoundTrip(manifest: Option<string>, caps: seq<string>, command: seq<string>, json: bool)
    ensures Parse(Render(manifest, caps, command, json)) == Run(manifest, caps, command, json)
            <==> Carried(manifest) && AllCaps(caps) && Distinct(caps) && caps != [] && command != []
  {
    var raw := Render(manifest, caps, command, json);
    assert BOUNDARY in raw by { assert raw[|Flags(manifest, json) + caps|] == BOUNDARY; }
    OnlyIds(raw);
    if !Carried(manifest) {
      NotCarried(manifest, caps, command, json);
    } else if AllCaps(caps) && Distinct(caps) && caps != [] && command != [] {
      RenderedReads(manifest, caps, command, json);
    }
  }

  // ---------------------------------------------------------------- without a boundary

  lemma {:induction false} OldForm(head: seq<string>, st: State)
    requires |st.caps| <= 1
    ensures var r := ReadHead(head, false, st);
            r.Ok? ==> |r.value.0.caps| <= 1 && (r.value.1.Some? ==> |r.value.0.caps| == 1 && |r.value.1.value| <= |head| &&
                                                                    r.value.1.value == head[|head| - |r.value.1.value|..])
    decreases |head|
  {
    if head != [] {
      var tok := head[0];
      if tok == "--json" {
        OldForm(head[1..], st.(json := true));
      } else if IsManifestFlag(tok) {
        if |head| >= 2 { OldForm(head[2..], st.(manifest := Some(head[1]))); }
      } else if StartsWith(tok, MANIFEST_IS) {
        OldForm(head[1..], st.(manifest := Some(tok[|MANIFEST_IS|..])));
      } else if st.caps == [] && !IsOption(tok) {
        OldForm(head[1..], st.(caps := st.caps + [tok]));
      }
    }
  }

  /** Without a `--` there is one capability and no more, and the command is the rest of the line from some token on. */
  lemma OneWithoutBoundary(raw: seq<string>)
    requires BOUNDARY !in raw
    ensures var p := Parse(raw);
            p.Run? ==> |p.caps| == 1 && |p.command| <= |raw| && p.command == raw[|raw| - |p.command|..]
  {
    OldForm(raw, START);
  }
}
