/**
 What the history verdict is judged on: git's answers about each commit's
 declaration, read back into what git stores, and the whole verdict on them.
 */
module HistoryInput {
  import opened Base
  import opened BatchOutput
  import opened History
  import opened HistoryListing

  /** What a commit holds at the declaration's path. */
  datatype Entry = Absent | Odd | File(oid: Bytes)

  datatype Refusal = ShortOutput | Unreadable | Laundered

  // ---------------------------------------------------------------- rows of the batch check

  const MISSING: Bytes := [109, 105, 115, 115, 105, 110, 103]
  const REGULAR: Bytes := [49, 48, 48, 54, 52, 52]
  const EXECUTABLE: Bytes := [49, 48, 48, 55, 53, 53]
  const BLOB: Bytes := [98, 108, 111, 98]

  predicate EndsMissing(row: Bytes) {
    |row| >= 8 && row[|row| - 8] == SP && row[|row| - 7..] == MISSING
  }

  function EntryOf(fields: seq<Bytes>): (e: Entry) {
    if |fields| != 3 || (fields[0] != REGULAR && fields[0] != EXECUTABLE) || fields[1] != BLOB then Odd
    else File(fields[2])
  }

  function ReadRow(row: Bytes): (e: Entry) {
    if EndsMissing(row) then Absent else EntryOf(Fields(row))
  }

  lemma ThreeFields(a: Bytes, b: Bytes, c: Bytes)
    requires Word(a) && Word(b) && Word(c)
    ensures Fields(a + ([SP] + (b + ([SP] + c)))) == [a, b, c]
  {
    FieldsLast(c);
    FieldsWord(b, c, b + ([SP] + c));
    FieldsWord(a, b + ([SP] + c), a + ([SP] + (b + ([SP] + c))));
  }

  lemma NoLaterSpace(row: Bytes, i: nat)
    requires EndsMissing(row) && i < |row|
    ensures i > |row| - 8 ==> row[i] != SP
  {
    if i > |row| - 8 { assert row[i] == MISSING[i - (|row| - 7)]; }
  }

  lemma LastWord(before: Bytes, w: Bytes)
    requires Word(w)
    ensures EndsMissing(before + ([SP] + w)) <==> w == MISSING
  {
    var row := before + ([SP] + w);
    assert row[|before| + 1..] == w;
    forall k | |before| < k < |row| ensures row[k] != SP { assert row[k] == w[k - |before| - 1]; }
    if EndsMissing(row) {
      NoLaterSpace(row, |before|);
      assert row[|before|] == SP;
    }
  }

  lemma NotMissing(mode: Bytes, kind: Bytes, oid: Bytes, row: Bytes)
    requires row == mode + ([SP] + (kind + ([SP] + oid))) && Word(oid) && oid != MISSING
    ensures !EndsMissing(row)
  {
    LastWord(mode + ([SP] + kind), oid);
    assert mode + ([SP] + kind) + ([SP] + oid) == row;
  }

  lemma EntryIs(mode: Bytes, kind: Bytes, oid: Bytes)
    ensures EntryOf([mode, kind, oid]) == if mode in {REGULAR, EXECUTABLE} && kind == BLOB then File(oid) else Odd
  {
  }

  /** Only a regular file's blob is ever read as a declaration; a link, a tree or a module at that path is not. */
  lemma RowIsRead(mode: Bytes, kind: Bytes, oid: Bytes)
    requires Word(mode) && Word(kind) && Word(oid) && oid != MISSING
    ensures ReadRow(mode + ([SP] + (kind + ([SP] + oid))))
            == if mode in {REGULAR, EXECUTABLE} && kind == BLOB then File(oid) else Odd
  {
    var row := mode + ([SP] + (kind + ([SP] + oid)));
    NotMissing(mode, kind, oid, row);
    ThreeFields(mode, kind, oid);
    EntryIs(mode, kind, oid);
  }

  /** A commit has no declaration exactly when its row ends in the word missing. */
  lemma AbsentIff(row: Bytes)
    ensures ReadRow(row) == Absent <==> exists before :: row == before + ([SP] + MISSING)
  {
    if EndsMissing(row) {
      assert row == row[..|row| - 8] + ([SP] + MISSING);
    }
    if before: Bytes :| row == before + ([SP] + MISSING) {
      LastWord(before, MISSING);
    }
  }

  // ---------------------------------------------------------------- reading the declarations

  type Store = map<Bytes, Object>

  ghost predicate StoreOk(store: Store) {
    forall oid :: oid in store ==> store[oid].oid == oid && Word(oid) && Word(store[oid].kind)
  }

  function Stored(store: Store, oids: seq<Bytes>): (os: seq<Object>)
    requires forall i :: 0 <= i < |oids| ==> oids[i] in store
    ensures |os| == |oids| && forall i :: 0 <= i < |os| ==> os[i] == store[oids[i]]
  {
    if oids == [] then [] else [store[oids[0]]] + Stored(store, oids[1..])
  }

  /** git answers a batch with the objects asked for, in order. */
  ghost predicate Answers(git: seq<Bytes> -> Bytes, store: Store) {
    forall oids: seq<Bytes> :: (forall i :: 0 <= i < |oids| ==> oids[i] in store) ==> git(oids) == Print(Stored(store, oids))
  }

  lemma {:induction false} DatasAt(os: seq<Object>, i: nat)
    requires i < |os|
    ensures |Datas(os)| == |os| && Datas(os)[i] == os[i].data
  {
    if |os| > 1 { DatasAt(os[1..], if i == 0 then 0 else i - 1); }
  }

  lemma DatasLength(os: seq<Object>)
    ensures |Datas(os)| == |os|
  {
    if os != [] { DatasAt(os, 0); }
  }

  /** The set, in some order. */
  method Listed(oids: set<Bytes>) returns (q: seq<Bytes>)
    ensures forall o :: o in q <==> o in oids
    ensures forall i, j :: 0 <= i < j < |q| ==> q[i] != q[j]
  {
    q := [];
    var left := oids;
    while left != {}
      invariant left <= oids
      invariant forall o :: o in q <==> o in oids && o !in left
      invariant forall i, j :: 0 <= i < j < |q| ==> q[i] != q[j]
    {
      var o :| o in left;
      q, left := q + [o], left - {o};
    }
  }

  /** Whether each blob's content is a clean private declaration; None when the output cannot be read. */
  method ReadBlobs(oids: set<Bytes>, git: seq<Bytes> -> Bytes, declares: Bytes -> bool, ghost store: Store)
    returns (r: Option<map<Bytes, bool>>)
    ensures r.Some? ==> r.value.Keys == oids
    ensures StoreOk(store) && Answers(git, store) && oids <= store.Keys ==>
            r.Some? && forall o :: o in oids ==> r.value[o] == declares(store[o].data)
  {
    var asked := Listed(oids);
    var read := ReadBatch(git(asked), |asked|);
    if StoreOk(store) && Answers(git, store) && oids <= store.Keys {
      BlobsRead(git, store, asked);
    }
    if read.None? {
      return None;
    }
    ReadAllLength(git(asked), 0, |asked|);
    var private := Classify(asked, read.value.0, declares);
    r := Some(private);
  }

  lemma BlobsRead(git: seq<Bytes> -> Bytes, store: Store, asked: seq<Bytes>)
    requires StoreOk(store) && Answers(git, store) && forall i :: 0 <= i < |asked| ==> asked[i] in store
    ensures var r := ReadAll(git(asked), 0, |asked|);
            r.Some? && |r.value.0| == |asked| && forall i :: 0 <= i < |asked| ==> r.value.0[i] == store[asked[i]].data
  {
    var os := Stored(store, asked);
    AnswerIs(git, store, asked);
    BatchRoundTrip(os);
    forall i | 0 <= i < |asked| ensures |Datas(os)| == |asked| && Datas(os)[i] == store[asked[i]].data { DatasAt(os, i); }
    DatasLength(os);
  }

  lemma AnswerIs(git: seq<Bytes> -> Bytes, store: Store, asked: seq<Bytes>)
    requires StoreOk(store) && Answers(git, store) && forall i :: 0 <= i < |asked| ==> asked[i] in store
    ensures git(asked) == Print(Stored(store, asked))
    ensures forall i :: 0 <= i < |asked| ==> Word(Stored(store, asked)[i].oid) && Word(Stored(store, asked)[i].kind)
  {
  }

  method Classify(asked: seq<Bytes>, blobs: seq<Bytes>, declares: Bytes -> bool) returns (private: map<Bytes, bool>)
    requires |asked| == |blobs| && forall i, j :: 0 <= i < j < |asked| ==> asked[i] != asked[j]
    ensures forall o :: o in private <==> o in asked
    ensures forall i :: 0 <= i < |asked| ==> private[asked[i]] == declares(blobs[i])
  {
    private := map[];
    for i := 0 to |asked|
      invariant forall o :: o in private <==> o in asked[..i]
      invariant forall k :: 0 <= k < i ==> asked[k] in private && private[asked[k]] == declares(blobs[k])
    {
      assert asked[..i + 1] == asked[..i] + [asked[i]];
      private := private[asked[i] := declares(blobs[i])];
    }
    assert asked[..|asked|] == asked;
  }

  lemma {:induction false} ReadAllLength(out: Bytes, pos: nat, n: nat)
    ensures ReadAll(out, pos, n).Some? ==> |ReadAll(out, pos, n).value.0| == n
    decreases n
  {
    if n > 0 {
      var one := ReadOne(out, pos);
      if one.Some? { ReadAllLength(out, one.value.1, n - 1); }
    }
  }

  function DeclaredBy(e: Entry, private: map<Bytes, bool>): (d: Declared) {
    match e
    case Absent => None
    case Odd => Some(false)
    case File(oid) => Some(oid in private && private[oid])
  }

  /** What the content of the repository says, with no parsing in between. */
  ghost function TrueDeclaration(e: Entry, store: Store, declares: Bytes -> bool): (d: Declared) {
    match e
    case Absent => None
    case Odd => Some(false)
    case File(oid) => Some(oid in store && declares(store[oid].data))
  }

  ghost predicate AllStored(entries: seq<Entry>, store: Store) {
    forall i :: 0 <= i < |entries| && entries[i].File? ==> entries[i].oid in store
  }

  method FilesIn(entries: seq<Entry>) returns (oids: set<Bytes>)
    ensures forall o :: o in oids <==> File(o) in entries
  {
    oids := {};
    for i := 0 to |entries|
      invariant forall o :: o in oids <==> File(o) in entries[..i]
    {
      assert entries[..i + 1] == entries[..i] + [entries[i]];
      match entries[i] {
        case File(oid) => oids := oids + {oid};
        case _ =>
      }
    }
    assert entries[..|entries|] == entries;
  }

  function Entries(rows: seq<Bytes>): (es: seq<Entry>)
    ensures |es| == |rows|
  {
    if rows == [] then [] else Entries(rows[..|rows| - 1]) + [ReadRow(rows[|rows| - 1])]
  }

  lemma {:induction false} EntriesAt(rows: seq<Bytes>, i: nat)
    requires i < |rows|
    ensures Entries(rows)[i] == ReadRow(rows[i])
  {
    if i < |rows| - 1 {
      EntriesAt(rows[..|rows| - 1], i);
      assert rows[..|rows| - 1][i] == rows[i];
    }
  }

  method ReadRows(rows: seq<Bytes>) returns (entries: seq<Entry>)
    ensures entries == Entries(rows)
  {
    entries := [];
    for i := 0 to |rows|
      invariant entries == Entries(rows[..i])
    {
      assert rows[..i + 1][..i] == rows[..i];
      entries := entries + [ReadRow(rows[i])];
    }
    assert rows[..|rows|] == rows;
  }

  method ReadDeclarations(walk: seq<Node>, entries: seq<Entry>, git: seq<Bytes> -> Bytes, declares: Bytes -> bool,
                          ghost store: Store) returns (decl: Option<map<Commit, Declared>>)
    requires WellFormed(walk) && |entries| == |walk|
    ensures decl.Some? ==> decl.value.Keys == GraphOf(walk).Keys
    ensures StoreOk(store) && Answers(git, store) && AllStored(entries, store) ==>
            decl == Some(TrueDeclarations(walk, entries, store, declares))
  {
    var oids := FilesIn(entries);
    FilesStored(entries, oids, store);
    var private := ReadBlobs(oids, git, declares, store);
    if private.None? {
      return None;
    }
    var d := Declare(walk, entries, private.value);
    decl := Some(d);
    if StoreOk(store) && Answers(git, store) && AllStored(entries, store) {
      DeclarationsAre(walk, entries, private.value, oids, store, declares);
    }
  }

  /** What each walked commit truly declares. */
  ghost function TrueDeclarations(walk: seq<Node>, entries: seq<Entry>, store: Store, declares: Bytes -> bool): map<Commit, Declared>
    requires |entries| == |walk|
    decreases |walk|
  {
    if walk == [] then map[]
    else
      var n := |walk| - 1;
      TrueDeclarations(walk[..n], entries[..n], store, declares)[walk[n].id := TrueDeclaration(entries[n], store, declares)]
  }

  function Declarations(walk: seq<Node>, entries: seq<Entry>, private: map<Bytes, bool>): (decl: map<Commit, Declared>)
    requires |entries| == |walk|
    ensures decl.Keys == GraphOf(walk).Keys
    decreases |walk|
  {
    if walk == [] then map[]
    else
      var n := |walk| - 1;
      Declarations(walk[..n], entries[..n], private)[walk[n].id := DeclaredBy(entries[n], private)]
  }

  lemma {:induction false} DeclarationsAre(walk: seq<Node>, entries: seq<Entry>, private: map<Bytes, bool>, oids: set<Bytes>,
                                           store: Store, declares: Bytes -> bool)
    requires |entries| == |walk| && private.Keys == oids && oids <= store.Keys
    requires forall o :: File(o) in entries ==> o in oids
    requires forall o :: o in oids ==> private[o] == declares(store[o].data)
    ensures Declarations(walk, entries, private) == TrueDeclarations(walk, entries, store, declares)
    decreases |walk|
  {
    if walk != [] {
      var n := |walk| - 1;
      forall o | File(o) in entries[..n] ensures o in oids { assert File(o) in entries; }
      DeclarationsAre(walk[..n], entries[..n], private, oids, store, declares);
      SameDeclaration(entries, n, oids, private, store, declares);
    }
  }

  lemma FilesStored(entries: seq<Entry>, oids: set<Bytes>, store: Store)
    requires forall o :: o in oids <==> File(o) in entries
    ensures AllStored(entries, store) ==> oids <= store.Keys
  {
  }

  lemma SameDeclaration(entries: seq<Entry>, i: nat, oids: set<Bytes>, private: map<Bytes, bool>, store: Store, declares: Bytes -> bool)
    requires i < |entries| && private.Keys == oids && oids <= store.Keys
    requires forall o :: File(o) in entries ==> o in oids
    requires forall o :: o in oids ==> private[o] == declares(store[o].data)
    ensures DeclaredBy(entries[i], private) == TrueDeclaration(entries[i], store, declares)
  {
    if entries[i].File? {
      assert File(entries[i].oid) in entries;
    }
  }

  method Declare(walk: seq<Node>, entries: seq<Entry>, private: map<Bytes, bool>) returns (decl: map<Commit, Declared>)
    requires |entries| == |walk|
    ensures decl == Declarations(walk, entries, private)
  {
    decl := map[];
    for i := 0 to |walk|
      invariant decl == Declarations(walk[..i], entries[..i], private)
    {
      assert walk[..i + 1][..i] == walk[..i] && entries[..i + 1][..i] == entries[..i];
      decl := decl[walk[i].id := DeclaredBy(entries[i], private)];
    }
    assert walk[..|walk|] == walk && entries[..|entries|] == entries;
  }

  lemma TrulyCovered(walk: seq<Node>, entries: seq<Entry>, store: Store, declares: Bytes -> bool)
    requires |entries| == |walk|
    ensures Covers(GraphOf(walk), TrueDeclarations(walk, entries, store, declares))
    decreases |walk|
  {
    if walk != [] { TrulyCovered(walk[..|walk| - 1], entries[..|walk| - 1], store, declares); }
  }

  /**
   The whole verdict, from git's raw output to skip or refuse: the listing of
   commits, the batch check of their declarations and the blobs. Whatever bytes
   the blobs hold, what is judged is the content git stores.
   */
  method AbsentVerdict(listing: Bytes, head: Commit, checked: Bytes, git: seq<Bytes> -> Bytes,
                       declares: Bytes -> bool, ghost store: Store) returns (refused: Option<Refusal>)
    requires WellFormed(NodesOf(listing))
    ensures |Lines(checked)| != |NodesOf(listing)| <==> refused == Some(ShortOutput)
    ensures var walk, entries := NodesOf(listing), Entries(Lines(checked));
            |entries| == |walk| && StoreOk(store) && Answers(git, store) && AllStored(entries, store) ==>
            var decl := TrueDeclarations(walk, entries, store, declares);
            Covers(GraphOf(walk), decl) &&
            refused == if Skips(GraphOf(walk), decl, head) then None else Some(Laundered)
  {
    var graph, walk := ReadWalk(listing);
    var rows := Lines(checked);
    if |rows| != |walk| {
      return Some(ShortOutput);
    }
    var entries := ReadRows(rows);
    TrulyCovered(walk, entries, store, declares);
    var decl := ReadDeclarations(walk, entries, git, declares, store);
    if decl.None? {
      return Some(Unreadable);
    }
    var skip := Verdict(walk, graph, head, decl.value);
    refused := if skip then None else Some(Laundered);
  }
}
