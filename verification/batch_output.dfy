/** Reading `git cat-file --batch` output: one header line and `size` raw bytes per object. */
module BatchOutput {
  import opened Base

  const LF: byte := 10
  const SP: byte := 32

  predicate IsSpace(b: byte) { b == 32 || 9 <= b <= 13 }

  predicate IsDigit(b: byte) { 48 <= b <= 57 }

  // ---------------------------------------------------------------- numbers

  function Decimal(n: nat): (d: Bytes)
    ensures d != [] && forall i :: 0 <= i < |d| ==> IsDigit(d[i])
  {
    if n < 10 then [(48 + n) as byte] else Decimal(n / 10) + [(48 + n % 10) as byte]
  }

  function ParseDecimal(d: Bytes): (n: Option<nat>) {
    if d == [] || !IsDigit(d[|d| - 1]) then None
    else
      var low := d[|d| - 1] as int - 48;
      if |d| == 1 then Some(low)
      else match ParseDecimal(d[..|d| - 1]) case None => None case Some(high) => Some(high * 10 + low)
  }

  lemma {:induction false} DecimalInverse(n: nat)
    ensures ParseDecimal(Decimal(n)) == Some(n)
  {
    if n >= 10 {
      DecimalInverse(n / 10);
      var d := Decimal(n);
      assert d[..|d| - 1] == Decimal(n / 10);
    }
  }

  // ---------------------------------------------------------------- fields

  /** How many leading bytes are (or are not) white space. */
  function Run(s: Bytes, space: bool): (n: nat)
    ensures n <= |s|
    ensures forall i :: 0 <= i < n ==> IsSpace(s[i]) == space
    ensures n < |s| ==> IsSpace(s[n]) != space
  {
    if s == [] || IsSpace(s[0]) != space then 0 else 1 + Run(s[1..], space)
  }

  /** `bytes.split()`. */
  function Fields(s: Bytes): (fs: seq<Bytes>)
    decreases |s|, 1
  {
    FieldsOf(s[Run(s, true)..])
  }

  function FieldsOf(word: Bytes): (fs: seq<Bytes>)
    requires word != [] ==> !IsSpace(word[0])
    decreases |word|, 0
  {
    if word == [] then [] else
    var n := Run(word, false);
    [word[..n]] + Fields(word[n..])
  }

  ghost predicate Word(w: Bytes) {
    w != [] && forall i :: 0 <= i < |w| ==> !IsSpace(w[i])
  }

  lemma RunIs(s: Bytes, space: bool, n: nat)
    requires n <= |s| && (forall i :: 0 <= i < n ==> IsSpace(s[i]) == space) && (n < |s| ==> IsSpace(s[n]) != space)
    ensures Run(s, space) == n
  {
    var m := Run(s, space);
    assert !(m < n) && !(n < m);
  }

  lemma NoFields()
    ensures Fields([]) == []
  {
  }

  /** A word with white space, or nothing, after it is the first field. */
  lemma FieldsFirst(s: Bytes, w: Bytes)
    requires Word(w) && |w| <= |s| && s[..|w|] == w && (|w| < |s| ==> s[|w|] == SP)
    ensures Fields(s) == [w] + Fields(s[|w|..])
  {
    forall i | 0 <= i < |w| ensures !IsSpace(s[i]) { assert s[i] == w[i]; }
    RunIs(s, true, 0);
    assert s[0..] == s;
    RunIs(s, false, |w|);
  }

  lemma FieldsLast(w: Bytes)
    requires Word(w)
    ensures Fields(w) == [w]
  {
    assert w[..|w|] == w && w[|w|..] == [];
    FieldsFirst(w, w);
    NoFields();
  }

  lemma FieldsWord(w: Bytes, rest: Bytes, s: Bytes)
    requires Word(w) && s == w + ([SP] + rest)
    ensures Fields(s) == [w] + Fields(rest)
  {
    assert s[..|w|] == w && s[|w|..] == [SP] + rest;
    FieldsFirst(s, w);
    FieldsSpace(rest, s[|w|..], Run(rest, true));
  }

  lemma FieldsSpace(rest: Bytes, s: Bytes, n: nat)
    requires s == [SP] + rest && n == Run(rest, true)
    ensures Fields(s) == Fields(rest)
  {
    forall i | 0 < i < |s| ensures s[i] == rest[i - 1] { }
    RunIs(s, true, n + 1);
    assert s[n + 1..] == rest[n..];
    FieldsSkip(s, n + 1);
    FieldsSkip(rest, n);
  }

  lemma FieldsSkip(s: Bytes, n: nat)
    requires n == Run(s, true)
    ensures Fields(s) == FieldsOf(s[n..])
  {
  }

  // ---------------------------------------------------------------- the batch format

  datatype Object = Object(oid: Bytes, kind: Bytes, data: Bytes)

  function Header(o: Object): Bytes {
    o.oid + ([SP] + (o.kind + ([SP] + Decimal(|o.data|))))
  }

  function PrintOne(o: Object): Bytes {
    Header(o) + [LF] + o.data + [LF]
  }

  function Print(os: seq<Object>): Bytes {
    if os == [] then [] else PrintOne(os[0]) + Print(os[1..])
  }

  function Datas(os: seq<Object>): (ds: seq<Bytes>) {
    if os == [] then [] else [os[0].data] + Datas(os[1..])
  }

  /** `bytes.index(LF, pos)`, or the length when there is none. */
  function NextLine(out: Bytes, pos: nat): (i: nat)
    requires pos <= |out|
    ensures pos <= i <= |out|
    ensures i < |out| ==> out[i] == LF
    ensures forall k :: pos <= k < i ==> out[k] != LF
    decreases |out| - pos
  {
    if pos == |out| || out[pos] == LF then pos else NextLine(out, pos + 1)
  }

  function Clip(out: Bytes, i: nat): nat {
    if i < |out| then i else |out|
  }

  /** One turn of the loop: the blob that starts at `pos`, and where the next one starts. None when Python would raise. */
  function ReadOne(out: Bytes, pos: nat): (r: Option<(Bytes, nat)>) {
    if pos > |out| then None else
    var end := NextLine(out, pos);
    if end == |out| then None else ReadData(out, end, SizeIn(Fields(out[pos..end])))
  }

  function SizeIn(fields: seq<Bytes>): (size: Option<nat>) {
    if |fields| < 3 then None else ParseDecimal(fields[2])
  }

  function ReadData(out: Bytes, end: nat, size: Option<nat>): (r: Option<(Bytes, nat)>)
    requires end < |out|
  {
    if size.None? then None
    else Some((out[end + 1..Clip(out, end + 1 + size.value)], end + 1 + size.value + 1))
  }

  function ReadAll(out: Bytes, pos: nat, n: nat): (r: Option<(seq<Bytes>, nat)>)
    decreases n
  {
    if n == 0 then Some(([], pos))
    else match ReadOne(out, pos)
      case None => None
      case Some(one) => Prepend([one.0], ReadAll(out, one.1, n - 1))
  }

  function Prepend(blobs: seq<Bytes>, r: Option<(seq<Bytes>, nat)>): Option<(seq<Bytes>, nat)> {
    match r case None => None case Some(rest) => Some((blobs + rest.0, rest.1))
  }

  lemma PrependTwice(a: seq<Bytes>, b: seq<Bytes>, r: Option<(seq<Bytes>, nat)>)
    ensures Prepend(a, Prepend(b, r)) == Prepend(a + b, r)
    ensures Prepend([], r) == r
  {
    if r.Some? {
      assert a + (b + r.value.0) == a + b + r.value.0;
      assert [] + r.value.0 == r.value.0;
    }
  }

  /** The loop over the requested blobs, in order; None when Python would raise. */
  method ReadBatch(out: Bytes, n: nat) returns (r: Option<(seq<Bytes>, nat)>)
    ensures r == ReadAll(out, 0, n)
  {
    var blobs: seq<Bytes> := [];
    var pos := 0;
    PrependTwice([], [], ReadAll(out, 0, n));
    for i := 0 to n
      invariant ReadAll(out, 0, n) == Prepend(blobs, ReadAll(out, pos, n - i))
    {
      var one := ReadOne(out, pos);
      if one.None? {
        return None;
      }
      PrependTwice(blobs, [one.value.0], ReadAll(out, one.value.1, n - i - 1));
      blobs, pos := blobs + [one.value.0], one.value.1;
    }
    assert blobs + [] == blobs;
    r := Some((blobs, pos));
  }

  lemma HeaderFields(o: Object)
    requires Word(o.oid) && Word(o.kind)
    ensures Fields(Header(o)) == [o.oid, o.kind, Decimal(|o.data|)]
  {
    var d := Decimal(|o.data|);
    var tail := o.kind + ([SP] + d);
    FieldsLast(d);
    FieldsWord(o.kind, d, tail);
    FieldsWord(o.oid, tail, o.oid + ([SP] + tail));
  }

  lemma HeaderOneLine(o: Object, i: nat)
    requires Word(o.oid) && Word(o.kind) && i < |Header(o)|
    ensures Header(o)[i] != LF
  {
    var d := Decimal(|o.data|);
    var tail := o.kind + ([SP] + d);
    var h := o.oid + ([SP] + tail);
    assert Header(o) == h;
  }

  /** The header, and then the data, stand where the reader looks for them. */
  lemma Layout(before: Bytes, h: Bytes, data: Bytes, after: Bytes, out: Bytes)
    requires out == before + (h + [LF] + data + [LF]) + after
    ensures |out| == |before| + |h| + 1 + |data| + 1 + |after|
    ensures out[|before| + |h|] == LF
    ensures out[|before|..|before| + |h|] == h
    ensures out[|before| + |h| + 1..|before| + |h| + 1 + |data|] == data
  {
    var at := |before| + |h|;
    forall i: nat | i < |h| ensures out[|before| + i] == h[i] { }
    forall i: nat | i < |data| ensures out[at + 1 + i] == data[i] { }
  }

  lemma LineEnds(before: Bytes, h: Bytes, out: Bytes)
    requires |before| + |h| < |out| && out[|before| + |h|] == LF
    requires out[|before|..|before| + |h|] == h
    requires forall i :: 0 <= i < |h| ==> h[i] != LF
    ensures NextLine(out, |before|) == |before| + |h|
  {
    forall k | |before| <= k < |before| + |h| ensures out[k] != LF {
      assert out[k] == h[k - |before|];
    }
  }

  lemma SizeIs(o: Object, line: Bytes)
    requires Word(o.oid) && Word(o.kind) && line == Header(o)
    ensures SizeIn(Fields(line)) == Some(|o.data|)
  {
    HeaderFields(o);
    DecimalInverse(|o.data|);
  }

  lemma DataAt(out: Bytes, end: nat, data: Bytes)
    requires end + 1 + |data| <= |out| && out[end + 1..end + 1 + |data|] == data
    ensures ReadData(out, end, Some(|data|)) == Some((data, end + |data| + 2))
  {
  }

  lemma LineAt(out: Bytes, pos: nat, end: nat)
    requires pos <= end < |out| && NextLine(out, pos) == end
    ensures ReadOne(out, pos) == ReadData(out, end, SizeIn(Fields(out[pos..end])))
  {
  }

  lemma HeaderAt(out: Bytes, pos: nat, end: nat, o: Object)
    requires Word(o.oid) && Word(o.kind)
    requires pos <= end < |out| && NextLine(out, pos) == end && out[pos..end] == Header(o)
    ensures ReadOne(out, pos) == ReadData(out, end, Some(|o.data|))
  {
    LineAt(out, pos, end);
    SizeIs(o, out[pos..end]);
  }

  lemma PrintedLength(o: Object)
    ensures |PrintOne(o)| == |Header(o)| + |o.data| + 2
  {
  }

  /** A printed object is read back exactly, whatever bytes it holds, wherever it stands in the output. */
  lemma ReadsBack(before: Bytes, o: Object, after: Bytes)
    requires Word(o.oid) && Word(o.kind)
    ensures ReadOne(before + PrintOne(o) + after, |before|) == Some((o.data, |before| + |PrintOne(o)|))
  {
    ReadsFrom(before, o, after, before + PrintOne(o) + after, Header(o));
    PrintedLength(o);
  }

  lemma ReadsFrom(before: Bytes, o: Object, after: Bytes, out: Bytes, h: Bytes)
    requires Word(o.oid) && Word(o.kind) && h == Header(o)
    requires out == before + (h + [LF] + o.data + [LF]) + after
    ensures ReadOne(out, |before|) == Some((o.data, |before| + |h| + |o.data| + 2))
  {
    Layout(before, h, o.data, after, out);
    forall i: nat | i < |h| ensures h[i] != LF { HeaderOneLine(o, i); }
    LineEnds(before, h, out);
    HeaderAt(out, |before|, |before| + |h|, o);
    DataAt(out, |before| + |h|, o.data);
  }

  lemma SplitFirst(before: Bytes, one: Bytes, rest: Bytes)
    ensures before + (one + rest) == before + one + rest
  {
  }

  lemma ReadMore(out: Bytes, pos: nat, n: nat, one: (Bytes, nat), rest: (seq<Bytes>, nat))
    requires ReadOne(out, pos) == Some(one) && ReadAll(out, one.1, n) == Some(rest)
    ensures ReadAll(out, pos, n + 1) == Some(([one.0] + rest.0, rest.1))
  {
  }

  lemma FirstIsRead(out: Bytes, before: Bytes, o: Object, rest: Bytes)
    requires Word(o.oid) && Word(o.kind) && out == before + (PrintOne(o) + rest)
    ensures out == before + PrintOne(o) + rest
    ensures ReadOne(out, |before|) == Some((o.data, |before + PrintOne(o)|))
  {
    SplitFirst(before, PrintOne(o), rest);
    ReadsBack(before, o, rest);
  }

  lemma {:induction false} BatchFrom(out: Bytes, before: Bytes, os: seq<Object>)
    requires (forall i :: 0 <= i < |os| ==> Word(os[i].oid) && Word(os[i].kind)) && out == before + Print(os)
    ensures ReadAll(out, |before|, |os|) == Some((Datas(os), |out|))
    decreases |os|
  {
    if os != [] {
      FirstIsRead(out, before, os[0], Print(os[1..]));
      NextBefore(out, before, os);
      BatchFrom(out, before + PrintOne(os[0]), os[1..]);
      ReadMore(out, |before|, |os| - 1, (os[0].data, |before + PrintOne(os[0])|), (Datas(os[1..]), |out|));
    }
  }

  lemma NextBefore(out: Bytes, before: Bytes, os: seq<Object>)
    requires os != [] && out == before + Print(os)
    ensures out == before + PrintOne(os[0]) + Print(os[1..])
  {
  }

  /**
   The loop recovers every blob of a batch, whatever bytes the blobs hold, line
   feeds included, and ends exactly at the end of the output.
   */
  lemma BatchRoundTrip(os: seq<Object>)
    requires forall i :: 0 <= i < |os| ==> Word(os[i].oid) && Word(os[i].kind)
    ensures ReadAll(Print(os), 0, |os|) == Some((Datas(os), |Print(os)|))
  {
    assert [] + Print(os) == Print(os);
    BatchFrom(Print(os), [], os);
  }
}
