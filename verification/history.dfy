/**
 The verdict on a history whose declaration file is absent: may the gate treat
 the repository as never opted in? One pass over the commits, children last,
 stands in for a claim about every path through the commit graph.
 */
module History {
  import opened Base

  type Commit = Bytes

  /** What a commit declares: nothing, or something that is or is not a clean private declaration. */
  type Declared = Option<bool>

  type Graph = map<Commit, seq<Commit>>

  datatype Node = Node(id: Commit, parents: seq<Commit>)

  // ---------------------------------------------------------------- paths

  /** A path from a commit back through parents, inside the walked graph. */
  ghost predicate Path(graph: Graph, p: seq<Commit>) {
    p != [] && (forall i :: 0 <= i < |p| ==> p[i] in graph) &&
    forall i :: 0 <= i < |p| - 1 ==> p[i + 1] in graph[p[i]]
  }

  ghost predicate Covers(graph: Graph, decl: map<Commit, Declared>) {
    forall c :: c in graph ==> c in decl
  }

  /** The path runs back through declaration-free commits to one whose declaration is not clean private. */
  ghost predicate Witness(graph: Graph, decl: map<Commit, Declared>, p: seq<Commit>)
    requires Covers(graph, decl)
  {
    Path(graph, p) && (forall i :: 0 <= i < |p| - 1 ==> decl[p[i]] == None) && decl[p[|p| - 1]] == Some(false)
  }

  ghost predicate Exposed(graph: Graph, decl: map<Commit, Declared>, c: Commit)
    requires Covers(graph, decl)
  {
    exists p :: Witness(graph, decl, p) && p[0] == c
  }

  lemma ExposedPath(graph: Graph, decl: map<Commit, Declared>, c: Commit) returns (p: seq<Commit>)
    requires Covers(graph, decl) && Exposed(graph, decl, c)
    ensures Witness(graph, decl, p) && p[0] == c
  {
    p :| Witness(graph, decl, p) && p[0] == c;
  }

  ghost predicate Tip(graph: Graph, t: Commit) {
    t in graph && forall c :: c in graph ==> t !in graph[c]
  }

  ghost predicate Skips(graph: Graph, decl: map<Commit, Declared>, head: Commit)
    requires Covers(graph, decl)
  {
    head in graph && !Exposed(graph, decl, head) && forall t :: Tip(graph, t) ==> !Exposed(graph, decl, t)
  }

  /** The walk lists each commit once, and no commit after one of its parents. */
  ghost predicate WellFormed(walk: seq<Node>) {
    (forall i, j :: 0 <= i < j < |walk| ==> walk[i].id != walk[j].id) &&
    forall i, j :: 0 <= i < |walk| && 0 <= j < |walk| && walk[j].id in walk[i].parents ==> i < j
  }

  ghost predicate IsGraph(walk: seq<Node>, graph: Graph) {
    (forall i :: 0 <= i < |walk| ==> walk[i].id in graph && graph[walk[i].id] == walk[i].parents) &&
    forall c :: c in graph ==> exists i :: 0 <= i < |walk| && walk[i].id == c
  }

  /** Each walked commit with its parents. */
  function GraphOf(walk: seq<Node>): (graph: Graph) {
    if walk == [] then map[] else GraphOf(walk[..|walk| - 1])[walk[|walk| - 1].id := walk[|walk| - 1].parents]
  }

  lemma {:induction false} GraphIs(walk: seq<Node>)
    requires WellFormed(walk)
    ensures IsGraph(walk, GraphOf(walk))
  {
    if walk != [] {
      var n := |walk| - 1;
      GraphIs(walk[..n]);
      GraphMore(walk, GraphOf(walk[..n]));
    }
  }

  lemma GraphMore(walk: seq<Node>, graph: Graph)
    requires walk != [] && WellFormed(walk) && IsGraph(walk[..|walk| - 1], graph)
    ensures IsGraph(walk, graph[walk[|walk| - 1].id := walk[|walk| - 1].parents])
  {
    var n := |walk| - 1;
    var more := graph[walk[n].id := walk[n].parents];
    forall i | 0 <= i < |walk| ensures walk[i].id in more && more[walk[i].id] == walk[i].parents {
      if i < n { assert walk[..n][i] == walk[i]; }
    }
    forall c | c in more ensures exists i :: 0 <= i < |walk| && walk[i].id == c {
      if c in graph {
        var i :| 0 <= i < n && walk[..n][i].id == c;
        assert walk[i].id == c;
      } else {
        assert walk[n].id == c;
      }
    }
  }

  lemma ExposedDeclared(graph: Graph, decl: map<Commit, Declared>, c: Commit)
    requires Covers(graph, decl) && c in graph && decl[c].Some?
    ensures Exposed(graph, decl, c) <==> !decl[c].value
  {
    if !decl[c].value {
      assert Witness(graph, decl, [c]);
    }
    if Exposed(graph, decl, c) {
      var p :| Witness(graph, decl, p) && p[0] == c;
      assert |p| == 1;
    }
  }

  lemma ExposedUp(graph: Graph, decl: map<Commit, Declared>, c: Commit, parent: Commit)
    requires Covers(graph, decl) && c in graph && decl[c] == None && parent in graph[c]
    requires Exposed(graph, decl, parent)
    ensures Exposed(graph, decl, c)
  {
    var p :| Witness(graph, decl, p) && p[0] == parent;
    var q := [c] + p;
    forall i | 0 <= i < |q| - 1 ensures q[i + 1] in graph[q[i]] && decl[q[i]] == None {
      if i > 0 { assert q[i] == p[i - 1]; }
    }
    assert Witness(graph, decl, q);
  }

  lemma ExposedDown(graph: Graph, decl: map<Commit, Declared>, c: Commit) returns (parent: Commit)
    requires Covers(graph, decl) && c in graph && decl[c] == None && Exposed(graph, decl, c)
    ensures parent in graph[c] && parent in graph && Exposed(graph, decl, parent)
  {
    var p :| Witness(graph, decl, p) && p[0] == c;
    parent := p[1];
    var q := p[1..];
    forall i | 0 <= i < |q| - 1 ensures q[i + 1] in graph[q[i]] && decl[q[i]] == None {
      assert q[i] == p[i + 1] && q[i + 1] == p[i + 2];
    }
    assert Witness(graph, decl, q);
  }

  // ---------------------------------------------------------------- the pass

  /** The parents' verdicts joined: a parent that was not walked counts as safe. */
  method AllSafe(safe: map<Commit, bool>, parents: seq<Commit>) returns (all: bool)
    ensures all <==> forall p :: p in parents && p in safe ==> safe[p]
  {
    for i := 0 to |parents|
      invariant forall k :: 0 <= k < i && parents[k] in safe ==> safe[parents[k]]
    {
      if parents[i] in safe && !safe[parents[i]] {
        return false;
      }
    }
    return true;
  }

  ghost predicate Judged(walk: seq<Node>, graph: Graph, decl: map<Commit, Declared>, safe: map<Commit, bool>, n: nat)
    requires Covers(graph, decl) && n <= |walk|
  {
    (forall k :: n <= k < |walk| ==> walk[k].id in safe) &&
    forall c :: c in safe ==> c in graph && (safe[c] <==> !Exposed(graph, decl, c)) &&
                              exists k :: n <= k < |walk| && walk[k].id == c
  }

  lemma ParentJudged(walk: seq<Node>, graph: Graph, decl: map<Commit, Declared>, safe: map<Commit, bool>, n: nat, p: Commit)
    requires n < |walk| && WellFormed(walk) && IsGraph(walk, graph) && Covers(graph, decl)
    requires Judged(walk, graph, decl, safe, n + 1) && p in walk[n].parents && p in graph
    ensures p in safe && (safe[p] <==> !Exposed(graph, decl, p))
  {
    var j :| 0 <= j < |walk| && walk[j].id == p;
    assert n < j;
  }

  lemma JoinIsRight(walk: seq<Node>, graph: Graph, decl: map<Commit, Declared>, safe: map<Commit, bool>, n: nat, all: bool)
    requires n < |walk| && WellFormed(walk) && IsGraph(walk, graph) && Covers(graph, decl)
    requires Judged(walk, graph, decl, safe, n + 1) && decl[walk[n].id] == None
    requires all <==> forall p :: p in walk[n].parents && p in safe ==> safe[p]
    ensures all <==> !Exposed(graph, decl, walk[n].id)
  {
    var c := walk[n].id;
    if Exposed(graph, decl, c) {
      var p := ExposedDown(graph, decl, c);
      ParentJudged(walk, graph, decl, safe, n, p);
    }
    if !all {
      var p :| p in walk[n].parents && p in safe && !safe[p];
      ExposedUp(graph, decl, c, p);
    }
  }

  method Judge(walk: seq<Node>, graph: Graph, decl: map<Commit, Declared>) returns (safe: map<Commit, bool>)
    requires WellFormed(walk) && IsGraph(walk, graph) && Covers(graph, decl)
    ensures safe.Keys == graph.Keys && forall c :: c in safe ==> (safe[c] <==> !Exposed(graph, decl, c))
  {
    safe := map[];
    for n := |walk| downto 0
      invariant Judged(walk, graph, decl, safe, n)
    {
      var ok := JudgeOne(walk, graph, decl, safe, n);
      JudgedMore(walk, graph, decl, safe, n, ok);
      safe := safe[walk[n].id := ok];
    }
  }

  method JudgeOne(walk: seq<Node>, graph: Graph, decl: map<Commit, Declared>, safe: map<Commit, bool>, n: nat) returns (ok: bool)
    requires n < |walk| && WellFormed(walk) && IsGraph(walk, graph) && Covers(graph, decl)
    requires Judged(walk, graph, decl, safe, n + 1)
    ensures ok <==> !Exposed(graph, decl, walk[n].id)
  {
    var c := walk[n].id;
    match decl[c] {
      case Some(private) =>
        ok := private;
        ExposedDeclared(graph, decl, c);
      case None =>
        ok := AllSafe(safe, graph[c]);
        JoinIsRight(walk, graph, decl, safe, n, ok);
    }
  }

  lemma JudgedMore(walk: seq<Node>, graph: Graph, decl: map<Commit, Declared>, safe: map<Commit, bool>, n: nat, ok: bool)
    requires n < |walk| && IsGraph(walk, graph) && Covers(graph, decl) && Judged(walk, graph, decl, safe, n + 1)
    requires ok <==> !Exposed(graph, decl, walk[n].id)
    ensures Judged(walk, graph, decl, safe[walk[n].id := ok], n)
  {
    var more := safe[walk[n].id := ok];
    forall c | c in more
      ensures c in graph && (more[c] <==> !Exposed(graph, decl, c)) && exists k :: n <= k < |walk| && walk[k].id == c
    {
      if c in safe {
        var k :| n + 1 <= k < |walk| && walk[k].id == c;
      }
    }
  }

  /** The commits that some commit has as a parent. */
  function Parented(graph: Graph): (parented: set<Commit>)
    ensures forall p :: p in parented <==> exists c :: c in graph && p in graph[c]
  {
    set c, p | c in graph && p in graph[c] :: p
  }

  ghost predicate Unsafe(node: Node, parented: set<Commit>, safe: map<Commit, bool>) {
    node.id !in parented && node.id in safe && !safe[node.id]
  }

  method TipsSafe(walk: seq<Node>, parented: set<Commit>, safe: map<Commit, bool>) returns (all: bool)
    requires forall i :: 0 <= i < |walk| ==> walk[i].id in safe
    ensures all <==> forall i :: 0 <= i < |walk| ==> !Unsafe(walk[i], parented, safe)
  {
    for i := 0 to |walk|
      invariant forall k :: 0 <= k < i ==> !Unsafe(walk[k], parented, safe)
    {
      if walk[i].id !in parented && !safe[walk[i].id] {
        assert Unsafe(walk[i], parented, safe);
        return false;
      }
    }
    return true;
  }

  lemma TipsJudged(walk: seq<Node>, graph: Graph, decl: map<Commit, Declared>, parented: set<Commit>, safe: map<Commit, bool>)
    requires IsGraph(walk, graph) && Covers(graph, decl) && safe.Keys == graph.Keys
    requires forall c :: c in safe ==> (safe[c] <==> !Exposed(graph, decl, c))
    requires forall p :: p in parented <==> exists c :: c in graph && p in graph[c]
    ensures (forall i :: 0 <= i < |walk| ==> !Unsafe(walk[i], parented, safe))
            <==> forall t :: Tip(graph, t) ==> !Exposed(graph, decl, t)
  {
    forall i | 0 <= i < |walk| && Unsafe(walk[i], parented, safe)
      ensures Tip(graph, walk[i].id) && Exposed(graph, decl, walk[i].id)
    {
    }
    forall t | Tip(graph, t) && Exposed(graph, decl, t)
      ensures exists i :: 0 <= i < |walk| && Unsafe(walk[i], parented, safe)
    {
      var i :| 0 <= i < |walk| && walk[i].id == t;
      assert Unsafe(walk[i], parented, safe);
    }
  }

  /**
   The verdict: skip the gate exactly when neither HEAD nor any tip leads back,
   through declaration-free commits, to a declaration that is not clean private.
   */
  method Verdict(walk: seq<Node>, graph: Graph, head: Commit, decl: map<Commit, Declared>) returns (skip: bool)
    requires WellFormed(walk) && graph == GraphOf(walk) && Covers(graph, decl)
    ensures skip <==> Skips(graph, decl, head)
  {
    var parented := Parented(graph);
    GraphIs(walk);
    var safe := Judge(walk, graph, decl);
    var tips := TipsSafe(walk, parented, safe);
    skip := head in safe && safe[head] && tips;
    TipsJudged(walk, graph, decl, parented, safe);
  }

  // ---------------------------------------------------------------- what the verdict means

  /** No walked commit escapes: each is reached by some path from a tip. */
  lemma {:induction false} TipsCover(walk: seq<Node>, graph: Graph, n: nat) returns (p: seq<Commit>)
    requires WellFormed(walk) && IsGraph(walk, graph) && n < |walk|
    ensures Path(graph, p) && Tip(graph, p[0]) && p[|p| - 1] == walk[n].id
    decreases n
  {
    if Tip(graph, walk[n].id) {
      p := [walk[n].id];
    } else {
      var c :| c in graph && walk[n].id in graph[c];
      var i :| 0 <= i < |walk| && walk[i].id == c;
      var q := TipsCover(walk, graph, i);
      p := q + [walk[n].id];
      forall k | 0 <= k < |p| - 1 ensures p[k + 1] in graph[p[k]] {
        if k < |q| - 1 { assert q[k + 1] in graph[q[k]]; }
      }
    }
  }

  ghost predicate Superseded(decl: map<Commit, Declared>, p: seq<Commit>) {
    exists i :: 0 <= i < |p| - 1 && p[i] in decl && decl[p[i]] == Some(true)
  }

  /** A path that ends at a declaration which is not clean private is exposed or superseded on the way. */
  lemma {:induction false} FirstDeclared(graph: Graph, decl: map<Commit, Declared>, p: seq<Commit>)
    requires Covers(graph, decl) && Path(graph, p) && decl[p[|p| - 1]] == Some(false)
    ensures Superseded(decl, p) || Exposed(graph, decl, p[0])
    decreases |p|
  {
    if decl[p[0]].Some? {
      ExposedDeclared(graph, decl, p[0]);
    } else {
      var q := p[1..];
      forall i | 0 <= i < |q| - 1 ensures q[i + 1] in graph[q[i]] {
        assert q[i] == p[i + 1] && q[i + 1] == p[i + 2];
      }
      FirstDeclared(graph, decl, q);
      if Superseded(decl, q) {
        var i :| 0 <= i < |q| - 1 && q[i] in decl && decl[q[i]] == Some(true);
        assert p[i + 1] == q[i];
      } else {
        ExposedUp(graph, decl, p[0], p[1]);
      }
    }
  }

  ghost predicate Start(graph: Graph, head: Commit, c: Commit) {
    c == head || Tip(graph, c)
  }

  /**
   The one-pass verdict is the claim about all paths: the gate is skipped
   exactly when on every path from HEAD or a tip back to a declaration that is
   not clean private, a clean private declaration came after it.
   */
  lemma SkipMeansSuperseded(graph: Graph, decl: map<Commit, Declared>, head: Commit)
    requires Covers(graph, decl)
    ensures Skips(graph, decl, head) <==>
            head in graph &&
            forall p :: Path(graph, p) && Start(graph, head, p[0]) && decl[p[|p| - 1]] == Some(false) ==> Superseded(decl, p)
  {
    if Skips(graph, decl, head) {
      forall p | Path(graph, p) && Start(graph, head, p[0]) && decl[p[|p| - 1]] == Some(false) ensures Superseded(decl, p) {
        FirstDeclared(graph, decl, p);
      }
    } else if head in graph {
      var c :| Start(graph, head, c) && c in graph && Exposed(graph, decl, c);
      var p := ExposedPath(graph, decl, c);
      assert !Superseded(decl, p);
    }
  }

  /**
   The way out: declare private, and remove the file in a later commit. The gate
   is then skipped, whatever stands in the history below, if and only if no other
   tip is exposed.
   */
  lemma PrivateThenRemoved(graph: Graph, decl: map<Commit, Declared>, declaring: Commit, removing: Commit)
    requires Covers(graph, decl) && declaring in graph && removing in graph
    requires decl[declaring] == Some(true) && decl[removing] == None && graph[removing] == [declaring]
    ensures Skips(graph, decl, removing) <==> forall t :: Tip(graph, t) && t != removing ==> !Exposed(graph, decl, t)
  {
    if Exposed(graph, decl, removing) {
      var p := ExposedDown(graph, decl, removing);
      ExposedDeclared(graph, decl, p);
    }
  }

  /** Removing a declaration that was not private is refused, as is laundering it through an invalid one. */
  lemma RemovedIsRefused(graph: Graph, decl: map<Commit, Declared>, declaring: Commit, removing: Commit)
    requires Covers(graph, decl) && declaring in graph && removing in graph && declaring in graph[removing]
    requires decl[declaring] == Some(false) && decl[removing] == None
    ensures !Skips(graph, decl, removing)
  {
    ExposedDeclared(graph, decl, declaring);
    ExposedUp(graph, decl, removing, declaring);
  }
}
