/** git's answers as text: the lines of an output, and the commits a `rev-list --parents` listing names. */
module HistoryListing {
  import opened Base
  import opened BatchOutput
  import opened History

  // ---------------------------------------------------------------- lines

  const CR: byte := 13

  /** The line boundaries among the ASCII characters. */
  predicate IsBreak(b: byte) { 10 <= b <= 13 || 28 <= b <= 30 }

  function FirstBreak(out: Bytes): (i: nat)
    ensures i <= |out| && (i < |out| ==> IsBreak(out[i]))
    ensures forall k :: 0 <= k < i ==> !IsBreak(out[k])
  {
    if out == [] || IsBreak(out[0]) then 0 else 1 + FirstBreak(out[1..])
  }

  function AfterBreak(out: Bytes, i: nat): (rest: Bytes)
    requires i < |out|
    ensures |rest| < |out|
  {
    if out[i] == CR && i + 1 < |out| && out[i + 1] == LF then out[i + 2..] else out[i + 1..]
  }

  /** `str.splitlines()`. */
  function Lines(out: Bytes): (ls: seq<Bytes>) {
    if out == [] then []
    else
      var i := FirstBreak(out);
      if i == |out| then [out] else [out[..i]] + Lines(AfterBreak(out, i))
  }

  /** What git prints: each line ended by a line feed. */
  function Ended(ls: seq<Bytes>): (out: Bytes) {
    if ls == [] then [] else ls[0] + [LF] + Ended(ls[1..])
  }

  ghost predicate OneLine(line: Bytes) {
    forall k :: 0 <= k < |line| ==> !IsBreak(line[k])
  }

  lemma LineThen(line: Bytes, rest: Bytes)
    requires OneLine(line)
    ensures Lines(line + [LF] + rest) == [line] + Lines(rest)
  {
    var out := line + [LF] + rest;
    assert out[|line|] == LF;
    assert FirstBreak(out) == |line| by {
      assert forall k :: 0 <= k < |line| ==> out[k] == line[k];
    }
    assert out[..|line|] == line && out[|line| + 1..] == rest;
  }

  /** A line ends at any boundary; a carriage return and the line feed right after it are one. */
  lemma BreakThen(line: Bytes, b: byte, rest: Bytes)
    requires OneLine(line) && IsBreak(b)
    ensures Lines(line + [b] + rest) == [line] + Lines(if b == CR && rest != [] && rest[0] == LF then rest[1..] else rest)
  {
    var out := line + [b] + rest;
    assert out[|line|] == b;
    assert FirstBreak(out) == |line| by {
      assert forall k :: 0 <= k < |line| ==> out[k] == line[k];
    }
    assert out[..|line|] == line && out[|line| + 1..] == rest;
    if rest != [] { assert out[|line| + 1] == rest[0] && out[|line| + 2..] == rest[1..]; }
  }

  /** The last line may have no boundary after it. */
  lemma LastUnended(line: Bytes)
    requires OneLine(line)
    ensures Lines(line) == if line == [] then [] else [line]
  {
  }

  /** What was printed line by line is read back line by line. */
  lemma {:induction false} LinesRoundTrip(ls: seq<Bytes>)
    requires forall i :: 0 <= i < |ls| ==> OneLine(ls[i])
    ensures Lines(Ended(ls)) == ls
  {
    if ls != [] {
      LinesRoundTrip(ls[1..]);
      LineThen(ls[0], Ended(ls[1..]));
    }
  }

  // ---------------------------------------------------------------- the listing

  /** A line's commit and its parents; a blank line names none. */
  function NodeIn(line: Bytes): (nodes: seq<Node>) {
    var fields := Fields(line);
    if fields == [] then [] else [Node(fields[0], fields[1..])]
  }

  function NodesIn(lines: seq<Bytes>): (walk: seq<Node>) {
    if lines == [] then [] else NodesIn(lines[..|lines| - 1]) + NodeIn(lines[|lines| - 1])
  }

  function NodesOf(listing: Bytes): (walk: seq<Node>) {
    NodesIn(Lines(listing))
  }

  lemma GraphSnoc(walk: seq<Node>, node: Node)
    ensures GraphOf(walk + [node]) == GraphOf(walk)[node.id := node.parents]
  {
    assert (walk + [node])[..|walk|] == walk;
  }

  /** One line more: its node, if it is not blank. */
  lemma NodesMore(lines: seq<Bytes>, i: nat)
    requires i < |lines|
    ensures var fields, walk := Fields(lines[i]), NodesIn(lines[..i]);
            NodesIn(lines[..i + 1]) == if fields == [] then walk else walk + [Node(fields[0], fields[1..])]
  {
    assert lines[..i + 1][..i] == lines[..i];
    assert NodesIn(lines[..i]) + [] == NodesIn(lines[..i]);
  }

  /** The parent graph and the order of the listing, read in one pass. */
  method ReadWalk(listing: Bytes) returns (graph: Graph, walk: seq<Node>)
    ensures walk == NodesOf(listing) && graph == GraphOf(walk)
  {
    graph, walk := map[], [];
    var lines := Lines(listing);
    for i := 0 to |lines|
      invariant walk == NodesIn(lines[..i]) && graph == GraphOf(walk)
    {
      NodesMore(lines, i);
      var fields := Fields(lines[i]);
      if fields != [] {
        GraphSnoc(walk, Node(fields[0], fields[1..]));
        graph, walk := graph[fields[0] := fields[1..]], walk + [Node(fields[0], fields[1..])];
      }
    }
    assert lines[..|lines|] == lines;
  }

  // ---------------------------------------------------------------- what git prints is what is read

  function Spaced(words: seq<Bytes>): (line: Bytes)
    requires words != []
  {
    if |words| == 1 then words[0] else words[0] + ([SP] + Spaced(words[1..]))
  }

  lemma {:induction false} SpacedFields(words: seq<Bytes>)
    requires words != [] && forall i :: 0 <= i < |words| ==> Word(words[i])
    ensures Fields(Spaced(words)) == words
  {
    if |words| == 1 {
      FieldsLast(words[0]);
    } else {
      SpacedFields(words[1..]);
      FieldsWord(words[0], Spaced(words[1..]), Spaced(words));
    }
  }

  lemma {:induction false} SpacedOneLine(words: seq<Bytes>)
    requires words != [] && forall i :: 0 <= i < |words| ==> OneLine(words[i])
    ensures OneLine(Spaced(words))
  {
    if |words| > 1 { SpacedOneLine(words[1..]); }
  }

  function LineOf(node: Node): (line: Bytes) {
    Spaced([node.id] + node.parents)
  }

  function LinesOf(walk: seq<Node>): (lines: seq<Bytes>)
    ensures |lines| == |walk| && forall i :: 0 <= i < |walk| ==> lines[i] == LineOf(walk[i])
  {
    seq(|walk|, i requires 0 <= i < |walk| => LineOf(walk[i]))
  }

  ghost predicate Id(id: Bytes) {
    Word(id) && OneLine(id)
  }

  ghost predicate Ids(walk: seq<Node>) {
    forall i :: 0 <= i < |walk| ==> Id(walk[i].id) && forall p :: p in walk[i].parents ==> Id(p)
  }

  lemma NodeRead(node: Node)
    requires Id(node.id) && forall p :: p in node.parents ==> Id(p)
    ensures NodeIn(LineOf(node)) == [node] && OneLine(LineOf(node))
  {
    var words := [node.id] + node.parents;
    forall i | 0 <= i < |words| ensures Id(words[i]) {
      if i > 0 { assert words[i] in node.parents; }
    }
    SpacedFields(words);
    SpacedOneLine(words);
    assert words[1..] == node.parents;
  }

  lemma {:induction false} NodesRead(walk: seq<Node>)
    requires Ids(walk)
    ensures NodesIn(LinesOf(walk)) == walk
    decreases |walk|
  {
    if walk != [] {
      var n := |walk| - 1;
      NodesRead(walk[..n]);
      NodeRead(walk[n]);
      LinesMore(walk);
    }
  }

  lemma LinesMore(walk: seq<Node>)
    requires walk != []
    ensures LinesOf(walk)[..|walk| - 1] == LinesOf(walk[..|walk| - 1])
  {
    var n := |walk| - 1;
    forall i | 0 <= i < n ensures LinesOf(walk)[i] == LinesOf(walk[..n])[i] { }
  }

  /** Every walk git prints is read back: each commit, its parents in order, and the order of the commits. */
  lemma ListingRoundTrip(walk: seq<Node>)
    requires Ids(walk)
    ensures NodesOf(Ended(LinesOf(walk))) == walk
  {
    forall i | 0 <= i < |walk| ensures OneLine(LinesOf(walk)[i]) { NodeRead(walk[i]); }
    LinesRoundTrip(LinesOf(walk));
    NodesRead(walk);
  }
}
