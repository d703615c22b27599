/** The frames of `git cat-file --batch` (`parse_git_batch` in scripts/architecture-docs/catalog.rb). */
module GitBatch {
  import opened Optional
  import opened ByteStrings

  const LF: byte := 10
  const SPACE: byte := 32
  /** "blob" */
  const BLOB: Bytes := [98, 108, 111, 98]

  /** ASCII white space, as a split on one space sees it. */
  predicate IsSpace(b: byte) {
    b == SPACE || 9 <= b <= 13
  }

  // ----- header fields

  function Spaces(t: Bytes): (n: nat)
    ensures n <= |t| && (forall i :: 0 <= i < n ==> IsSpace(t[i])) && (n < |t| ==> !IsSpace(t[n]))
  {
    if t == [] || !IsSpace(t[0]) then 0 else 1 + Spaces(t[1..])
  }

  function Word(t: Bytes): (n: nat)
    ensures n <= |t| && (forall i :: 0 <= i < n ==> !IsSpace(t[i])) && (n < |t| ==> IsSpace(t[n]))
  {
    if t == [] || IsSpace(t[0]) then 0 else 1 + Word(t[1..])
  }

  /** Words, and an empty last field if white space trails. */
  function WordFields(t: Bytes): seq<Bytes>
    decreases |t|
  {
    if t == [] || IsSpace(t[0]) then [[]]
    else
      var w := Word(t);
      var rest := t[w..];
      if rest == [] then [t] else [t[..w]] + WordFields(rest[Spaces(rest)..])
  }

  /** Ruby's `header.split(' ', -1)`: leading white space is dropped. */
  function Fields(header: Bytes): seq<Bytes> {
    if header == [] then [] else WordFields(header[Spaces(header)..])
  }

  // ----- decimal lengths

  predicate IsDigit(b: byte) {
    48 <= b <= 57
  }

  function Decimal(n: nat): (r: Bytes)
    ensures r != []
  {
    if n < 10 then [(48 + n) as byte] else Decimal(n / 10) + [(48 + n % 10) as byte]
  }

  predicate AllDigits(b: Bytes) {
    forall i :: 0 <= i < |b| ==> IsDigit(b[i])
  }

  /** `\A(?:0|[1-9][0-9]*)\z` */
  predicate Canonical(b: Bytes) {
    b == [48] || (b != [] && b[0] != 48 && AllDigits(b))
  }

  function Value(b: Bytes): nat
    requires AllDigits(b)
  {
    if b == [] then 0 else 10 * Value(b[..|b| - 1]) + (b[|b| - 1] as nat - 48)
  }

  lemma {:induction false} DecimalIsCanonical(n: nat)
    ensures Canonical(Decimal(n)) && AllDigits(Decimal(n)) && Value(Decimal(n)) == n
    ensures n > 0 ==> Decimal(n)[0] != 48
  {
    if n >= 10 {
      DecimalIsCanonical(n / 10);
      var r := Decimal(n);
      assert r[..|r| - 1] == Decimal(n / 10);
    }
  }

  lemma {:induction false} CanonicalIsDecimal(b: Bytes)
    requires Canonical(b)
    ensures AllDigits(b) && Decimal(Value(b)) == b
    ensures b[0] != 48 ==> Value(b) > 0
  {
    var front, last := b[..|b| - 1], b[|b| - 1];
    if |b| > 1 {
      CanonicalIsDecimal(front);
      var v := 10 * Value(front) + (last as nat - 48);
      assert v / 10 == Value(front) && v % 10 == last as nat - 48;
      assert b == front + [last];
    } else {
      assert front == [];
    }
  }

  // ----- records

  predicate HexLower(b: byte) {
    48 <= b <= 57 || 97 <= b <= 102
  }

  /** `\A[0-9a-f]{40}(?:[0-9a-f]{24})?\z` */
  predicate ObjectId(id: Bytes) {
    (|id| == 40 || |id| == 64) && forall i :: 0 <= i < |id| ==> HexLower(id[i])
  }

  /** The size a header announces for an object, if it is a well-formed header of that object. */
  function HeaderSize(header: Bytes, id: Bytes): Option<nat> {
    var f := Fields(header);
    if |f| == 3 && ObjectId(f[0]) && f[0] == id && f[1] == BLOB && Canonical(f[2]) && AllDigits(f[2])
    then Some(Value(f[2])) else None
  }

  /** Bytes before the first line feed; None without one. */
  function LineEnd(t: Bytes): (n: Option<nat>)
    ensures n.Some? ==> n.value < |t| && t[n.value] == LF && LF !in t[..n.value]
  {
    if t == [] then None
    else if t[0] == LF then Some(0)
    else match LineEnd(t[1..])
      case None => None
      case Some(n) => assert t[..n + 1] == [t[0]] + t[1..][..n]; Some(n + 1)
  }

  datatype Frame = Frame(blob: Bytes, size: nat)

  /** The frame at the head of `t`, with the bytes it takes. */
  function ReadFrame(t: Bytes, id: Bytes): (r: Option<Frame>)
    ensures r.Some? ==> 0 < r.value.size <= |t|
  {
    match LineEnd(t)
    case None => None
    case Some(line) =>
      match HeaderSize(t[..line], id)
      case None => None
      case Some(size) =>
        var end := line + 1 + size;
        if end >= |t| || t[end] != LF then None else Some(Frame(t[line + 1..end], end + 1))
  }

  /** A reader of one frame; the loop below is the same for all of them. */
  type FrameReader = (Bytes, Bytes) -> Option<Frame>

  function Append(read: seq<Bytes>, rest: Option<seq<Bytes>>): Option<seq<Bytes>> {
    if rest.None? then None else Some(read + rest.value)
  }

  /** The blobs of a whole output, frame by frame in request order. */
  function ParseWith(reader: FrameReader, ids: seq<Bytes>, t: Bytes): Option<seq<Bytes>> {
    if ids == [] then (if t == [] then Some([]) else None)
    else match reader(t, ids[0])
      case None => None
      case Some(frame) =>
        if frame.size > |t| then None else Append([frame.blob], ParseWith(reader, ids[1..], t[frame.size..]))
  }

  function Parse(ids: seq<Bytes>, t: Bytes): Option<seq<Bytes>> {
    ParseWith(ReadFrame, ids, t)
  }

  /** A header line that announces this object and this size; its white space may vary. */
  predicate Header(header: Bytes, id: Bytes, size: nat) {
    LF !in header && ObjectId(id) && Fields(header) == [id, BLOB, Decimal(size)]
  }

  function Record(header: Bytes, blob: Bytes): Bytes {
    header + [LF] + blob + [LF]
  }

  /** The text starts with the record of this header and blob, and the header announces them. */
  predicate StartsRecord(t: Bytes, id: Bytes, header: Bytes, blob: Bytes) {
    var n := |header| + |blob| + 2;
    Header(header, id, |blob|) && n <= |t| && t[..n] == Record(header, blob)
  }

  type RecordTest = (Bytes, Bytes, Bytes, Bytes) -> bool

  predicate TiledWith(starts: RecordTest, ids: seq<Bytes>, headers: seq<Bytes>, blobs: seq<Bytes>, t: Bytes)
    decreases |ids|
  {
    && |ids| == |headers| == |blobs|
    && if ids == [] then t == []
       else && starts(t, ids[0], headers[0], blobs[0])
            && var n := |headers[0]| + |blobs[0]| + 2;
               n <= |t| && TiledWith(starts, ids[1..], headers[1..], blobs[1..], t[n..])
  }

  /** The output is laid out by these headers and blobs: records end to end, with no gap, overlap or rest. */
  predicate Tiled(ids: seq<Bytes>, headers: seq<Bytes>, blobs: seq<Bytes>, t: Bytes) {
    TiledWith(StartsRecord, ids, headers, blobs, t)
  }

  lemma {:induction false} LineEndIs(t: Bytes, n: nat)
    requires n < |t| && t[n] == LF && LF !in t[..n]
    ensures LineEnd(t) == Some(n)
  {
    if n > 0 {
      assert t[0] in t[..n];
      assert forall x :: x in t[1..][..n - 1] ==> x in t[..n];
      LineEndIs(t[1..], n - 1);
    }
  }

  lemma HeaderAnnounces(header: Bytes, id: Bytes, size: nat)
    requires LF !in header
    ensures Header(header, id, size) <==> HeaderSize(header, id) == Some(size)
  {
    DecimalIsCanonical(size);
    var f := Fields(header);
    if HeaderSize(header, id) == Some(size) {
      CanonicalIsDecimal(f[2]);
      assert f == [f[0], f[1], f[2]];
    }
  }

  lemma RecordSlices(header: Bytes, blob: Bytes)
    ensures var r, n := Record(header, blob), |header|;
      && |r| == n + |blob| + 2 && r[..n] == header && r[n] == LF
      && r[n + 1..n + 1 + |blob|] == blob && r[n + 1 + |blob|] == LF
  {
    var r, n := Record(header, blob), |header|;
    assert r == header + ([LF] + (blob + [LF]));
    assert r[n..] == [LF] + (blob + [LF]);
    assert r[n + 1..] == blob + [LF];
    assert r[n + 1..n + 1 + |blob|] == r[n + 1..][..|blob|];
  }

  lemma PrefixSlice(t: Bytes, size: nat, from: nat, until: nat)
    requires from <= until <= size <= |t|
    ensures t[..size][from..until] == t[from..until]
  {
  }

  lemma StartSlices(t: Bytes, header: Bytes, blob: Bytes)
    requires |header| + |blob| + 2 <= |t| && t[..|header| + |blob| + 2] == Record(header, blob)
    ensures var n := |header|;
      t[..n] == header && t[n] == LF && t[n + 1..n + 1 + |blob|] == blob && t[n + 1 + |blob|] == LF
  {
    var n, record := |header|, Record(header, blob);
    RecordSlices(header, blob);
    PrefixSlice(t, |record|, 0, n);
    PrefixSlice(t, |record|, n + 1, n + 1 + |blob|);
    assert record[0..n] == record[..n] && t[0..n] == t[..n];
    assert t[n] == record[n] && t[n + 1 + |blob|] == record[n + 1 + |blob|];
  }

  /** A record is read back as its blob, whatever the blob contains. */
  lemma RecordReads(t: Bytes, id: Bytes, header: Bytes, blob: Bytes)
    requires StartsRecord(t, id, header, blob)
    ensures ReadFrame(t, id) == Some(Frame(blob, |header| + |blob| + 2))
  {
    StartSlices(t, header, blob);
    LineEndIs(t, |header|);
    HeaderAnnounces(header, id, |blob|);
  }

  /** What is read as a frame is a record. */
  lemma FrameIsRecord(t: Bytes, id: Bytes) returns (header: Bytes)
    requires ReadFrame(t, id).Some?
    ensures var f := ReadFrame(t, id).value;
      Header(header, id, |f.blob|) && f.size <= |t| && t[..f.size] == Record(header, f.blob)
  {
    var f := ReadFrame(t, id).value;
    var line := LineEnd(t).value;
    header := t[..line];
    HeaderAnnounces(header, id, |f.blob|);
    assert t[..f.size] == t[..line] + [t[line]] + t[line + 1..f.size - 1] + [t[f.size - 1]];
  }

  /** The reader takes exactly the records the test accepts. */
  ghost predicate Agree(reader: FrameReader, starts: RecordTest) {
    && (forall t, id, header, blob :: starts(t, id, header, blob) ==>
          reader(t, id) == Some(Frame(blob, |header| + |blob| + 2)))
    && (forall t, id :: reader(t, id).Some? ==> HasHeader(reader, starts, t, id))
  }

  ghost predicate HasHeader(reader: FrameReader, starts: RecordTest, t: Bytes, id: Bytes)
    requires reader(t, id).Some?
  {
    var f := reader(t, id).value;
    f.size <= |t| && exists header :: |header| + |f.blob| + 2 == f.size && starts(t, id, header, f.blob)
  }

  lemma FrameHasHeader(t: Bytes, id: Bytes)
    requires ReadFrame(t, id).Some?
    ensures HasHeader(ReadFrame, StartsRecord, t, id)
  {
    var header := FrameIsRecord(t, id);
    assert StartsRecord(t, id, header, ReadFrame(t, id).value.blob);
  }

  lemma ReaderAgrees()
    ensures Agree(ReadFrame, StartsRecord)
  {
    forall t, id, header, blob | StartsRecord(t, id, header, blob)
      ensures ReadFrame(t, id) == Some(Frame(blob, |header| + |blob| + 2))
    {
      RecordReads(t, id, header, blob);
    }
    forall t, id | ReadFrame(t, id).Some? ensures HasHeader(ReadFrame, StartsRecord, t, id) {
      FrameHasHeader(t, id);
    }
  }

  lemma {:induction false} TiledParses(reader: FrameReader, starts: RecordTest, ids: seq<Bytes>, headers: seq<Bytes>,
                                       blobs: seq<Bytes>, t: Bytes)
    requires Agree(reader, starts) && TiledWith(starts, ids, headers, blobs, t)
    ensures ParseWith(reader, ids, t) == Some(blobs)
    decreases |ids|
  {
    if ids != [] {
      var n := |headers[0]| + |blobs[0]| + 2;
      TiledHead(reader, starts, ids, headers, blobs, t);
      TiledParses(reader, starts, ids[1..], headers[1..], blobs[1..], t[n..]);
      ParseStep(reader, ids, blobs, t, n);
    }
  }

  lemma TiledHead(reader: FrameReader, starts: RecordTest, ids: seq<Bytes>, headers: seq<Bytes>, blobs: seq<Bytes>,
                  t: Bytes)
    requires Agree(reader, starts) && TiledWith(starts, ids, headers, blobs, t) && ids != []
    ensures |ids| == |headers| == |blobs|
    ensures var n := |headers[0]| + |blobs[0]| + 2;
      && n <= |t| && reader(t, ids[0]) == Some(Frame(blobs[0], n))
      && TiledWith(starts, ids[1..], headers[1..], blobs[1..], t[n..])
  {
    assert starts(t, ids[0], headers[0], blobs[0]);
  }

  lemma ParseStep(reader: FrameReader, ids: seq<Bytes>, blobs: seq<Bytes>, t: Bytes, n: nat)
    requires ids != [] && blobs != [] && n <= |t| && reader(t, ids[0]) == Some(Frame(blobs[0], n))
    requires ParseWith(reader, ids[1..], t[n..]) == Some(blobs[1..])
    ensures ParseWith(reader, ids, t) == Some(blobs)
  {
    assert blobs == [blobs[0]] + blobs[1..];
  }

  lemma {:induction false} ParsedTiles(reader: FrameReader, starts: RecordTest, ids: seq<Bytes>, t: Bytes)
    returns (headers: seq<Bytes>)
    requires Agree(reader, starts) && ParseWith(reader, ids, t).Some?
    ensures TiledWith(starts, ids, headers, ParseWith(reader, ids, t).value, t)
    decreases |ids|
  {
    if ids == [] {
      headers := [];
    } else {
      var f := reader(t, ids[0]).value;
      assert HasHeader(reader, starts, t, ids[0]);
      var header :| |header| + |f.blob| + 2 == f.size && starts(t, ids[0], header, f.blob);
      var rest := ParsedTiles(reader, starts, ids[1..], t[f.size..]);
      headers := [header] + rest;
      var blobs := ParseWith(reader, ids, t).value;
      assert headers[1..] == rest && blobs[1..] == ParseWith(reader, ids[1..], t[f.size..]).value;
    }
  }

  ghost predicate TileableWith(starts: RecordTest, ids: seq<Bytes>, blobs: seq<Bytes>, t: Bytes) {
    exists headers :: TiledWith(starts, ids, headers, blobs, t)
  }

  lemma ParsesExactlyTiled(reader: FrameReader, starts: RecordTest, ids: seq<Bytes>, blobs: seq<Bytes>, t: Bytes)
    requires Agree(reader, starts)
    ensures ParseWith(reader, ids, t) == Some(blobs) <==> TileableWith(starts, ids, blobs, t)
  {
    if ParseWith(reader, ids, t) == Some(blobs) {
      var headers := ParsedTiles(reader, starts, ids, t);
    }
    if TileableWith(starts, ids, blobs, t) {
      var headers :| TiledWith(starts, ids, headers, blobs, t);
      TiledParses(reader, starts, ids, headers, blobs, t);
    }
  }

  /** An output is accepted, with these blobs, exactly when it is records end to end; what the blobs
      contain plays no part. */
  lemma ParsesExactlyTiledOutputs(ids: seq<Bytes>, blobs: seq<Bytes>, t: Bytes)
    ensures Parse(ids, t) == Some(blobs) <==> TileableWith(StartsRecord, ids, blobs, t)
  {
    ReaderAgrees();
    ParsesExactlyTiled(ReadFrame, StartsRecord, ids, blobs, t);
  }

  // ----- the canonical print

  function CanonicalHeader(id: Bytes, size: nat): Bytes {
    id + [SPACE] + BLOB + [SPACE] + Decimal(size)
  }

  lemma {:induction false} WordIs(w: Bytes, rest: Bytes)
    requires (forall i :: 0 <= i < |w| ==> !IsSpace(w[i])) && (rest == [] || IsSpace(rest[0]))
    ensures Word(w + rest) == |w|
  {
    if w == [] {
      assert w + rest == rest;
    } else {
      assert (w + rest)[1..] == w[1..] + rest;
      WordIs(w[1..], rest);
    }
  }

  lemma WordThenFields(w: Bytes, rest: Bytes)
    requires w != [] && (forall i :: 0 <= i < |w| ==> !IsSpace(w[i])) && rest != [] && !IsSpace(rest[0])
    ensures WordFields(w + [SPACE] + rest) == [w] + WordFields(rest)
  {
    var t := w + [SPACE] + rest;
    assert t == w + ([SPACE] + rest);
    WordIs(w, [SPACE] + rest);
    assert t[..|w|] == w && t[|w|..] == [SPACE] + rest;
    assert ([SPACE] + rest)[1..] == rest;
    assert Spaces([SPACE] + rest) == 1;
  }

  lemma LastField(w: Bytes)
    requires w != [] && forall i :: 0 <= i < |w| ==> !IsSpace(w[i])
    ensures WordFields(w) == [w]
  {
    WordIs(w, []);
    assert w + [] == w;
  }

  predicate NoSpace(w: Bytes) {
    forall i :: 0 <= i < |w| ==> !IsSpace(w[i])
  }

  lemma FieldsFromWord(header: Bytes)
    requires header != [] && !IsSpace(header[0])
    ensures Fields(header) == WordFields(header)
  {
    assert Spaces(header) == 0;
    assert header[0..] == header;
  }

  lemma TwoFields(b: Bytes, c: Bytes)
    requires b != [] && c != [] && NoSpace(b) && NoSpace(c)
    ensures WordFields(b + [SPACE] + c) == [b] + [c]
  {
    LastField(c);
    WordThenFields(b, c);
  }

  lemma HeadField(header: Bytes, a: Bytes, tail: Bytes, fields: seq<Bytes>)
    requires header == a + [SPACE] + tail && a != [] && NoSpace(a) && tail != [] && !IsSpace(tail[0])
    requires fields == WordFields(tail)
    ensures Fields(header) == [a] + fields
  {
    WordThenFields(a, tail);
    FieldsFromWord(header);
  }

  lemma Joined(a: Bytes, b: Bytes, c: Bytes)
    ensures a + [SPACE] + b + [SPACE] + c == a + [SPACE] + (b + [SPACE] + c)
  {
  }

  lemma ThreeFields(a: Bytes, b: Bytes, c: Bytes)
    requires a != [] && b != [] && c != [] && NoSpace(a) && NoSpace(b) && NoSpace(c)
    ensures Fields(a + [SPACE] + b + [SPACE] + c) == [a, b, c]
  {
    Joined(a, b, c);
    TwoFields(b, c);
    HeadField(a + [SPACE] + b + [SPACE] + c, a, b + [SPACE] + c, [b] + [c]);
    assert [a] + ([b] + [c]) == [a, b, c];
  }

  lemma NoLineFeed(a: Bytes, b: Bytes, c: Bytes)
    requires LF !in a && LF !in b && LF !in c
    ensures LF !in a + [SPACE] + b + [SPACE] + c
  {
  }

  lemma CanonicalHeaderIsHeader(id: Bytes, size: nat)
    requires ObjectId(id)
    ensures Header(CanonicalHeader(id, size), id, size)
  {
    DecimalIsCanonical(size);
    ThreeFields(id, BLOB, Decimal(size));
    assert forall i :: 0 <= i < |BLOB| ==> BLOB[i] != LF;
    NoLineFeed(id, BLOB, Decimal(size));
  }

  function Print(ids: seq<Bytes>, blobs: seq<Bytes>): Bytes
    requires |ids| == |blobs|
  {
    if ids == [] then []
    else Record(CanonicalHeader(ids[0], |blobs[0]|), blobs[0]) + Print(ids[1..], blobs[1..])
  }

  lemma PrintSplits(ids: seq<Bytes>, blobs: seq<Bytes>)
    requires |ids| == |blobs| && ids != []
    ensures var record, t := Record(CanonicalHeader(ids[0], |blobs[0]|), blobs[0]), Print(ids, blobs);
      |record| <= |t| && t[..|record|] == record && t[|record|..] == Print(ids[1..], blobs[1..])
  {
  }

  function CanonicalHeaders(ids: seq<Bytes>, blobs: seq<Bytes>): seq<Bytes>
    requires |ids| == |blobs|
  {
    seq(|ids|, i requires 0 <= i < |ids| => CanonicalHeader(ids[i], |blobs[i]|))
  }

  lemma PrintStarts(ids: seq<Bytes>, blobs: seq<Bytes>)
    requires |ids| == |blobs| && ids != [] && ObjectId(ids[0])
    ensures StartsRecord(Print(ids, blobs), ids[0], CanonicalHeader(ids[0], |blobs[0]|), blobs[0])
  {
    CanonicalHeaderIsHeader(ids[0], |blobs[0]|);
    PrintSplits(ids, blobs);
  }

  lemma TiledStep(starts: RecordTest, ids: seq<Bytes>, headers: seq<Bytes>, blobs: seq<Bytes>, t: Bytes, n: nat)
    requires |ids| == |headers| == |blobs| > 0 && n == |headers[0]| + |blobs[0]| + 2 <= |t|
    requires starts(t, ids[0], headers[0], blobs[0]) && TiledWith(starts, ids[1..], headers[1..], blobs[1..], t[n..])
    ensures TiledWith(starts, ids, headers, blobs, t)
  {
  }

  lemma {:induction false} PrintIsTiled(ids: seq<Bytes>, blobs: seq<Bytes>)
    requires |ids| == |blobs| && forall id :: id in ids ==> ObjectId(id)
    ensures Tiled(ids, CanonicalHeaders(ids, blobs), blobs, Print(ids, blobs))
    decreases |ids|
  {
    if ids != [] {
      assert ids[0] in ids;
      PrintIsTiled(ids[1..], blobs[1..]);
      PrintStarts(ids, blobs);
      PrintSplits(ids, blobs);
      var headers := CanonicalHeaders(ids, blobs);
      assert headers[1..] == CanonicalHeaders(ids[1..], blobs[1..]);
      TiledStep(StartsRecord, ids, headers, blobs, Print(ids, blobs), |headers[0]| + |blobs[0]| + 2);
    }
  }

  /** Parsing git's own output returns exactly the requested blobs. */
  lemma PrintRoundTrip(ids: seq<Bytes>, blobs: seq<Bytes>)
    requires |ids| == |blobs| && forall id :: id in ids ==> ObjectId(id)
    ensures Parse(ids, Print(ids, blobs)) == Some(blobs)
  {
    PrintIsTiled(ids, blobs);
    ParsesExactlyTiledOutputs(ids, blobs, Print(ids, blobs));
  }

  // ----- the loop

  /** The dictionary the blobs are stored in; a repeated id keeps its last blob. */
  function Dictionary(ids: seq<Bytes>, blobs: seq<Bytes>): map<Bytes, Bytes>
    requires |ids| == |blobs|
  {
    if ids == [] then map[]
    else Dictionary(ids[..|ids| - 1], blobs[..|blobs| - 1])[ids[|ids| - 1] := blobs[|blobs| - 1]]
  }

  /** Half way: `read` are the blobs of the first `i` frames, which end at `offset`. */
  ghost predicate ParsedUpTo(reader: FrameReader, ids: seq<Bytes>, output: Bytes, i: int, offset: int,
                             read: seq<Bytes>) {
    && 0 <= i <= |ids| && 0 <= offset <= |output| && |read| == i
    && ParseWith(reader, ids, output) == Append(read, ParseWith(reader, ids[i..], output[offset..]))
  }

  lemma ParseBegins(reader: FrameReader, ids: seq<Bytes>, output: Bytes)
    ensures ParsedUpTo(reader, ids, output, 0, 0, [])
  {
    assert output[0..] == output && ids[0..] == ids;
    var whole := ParseWith(reader, ids, output);
    assert whole.Some? ==> [] + whole.value == whole.value;
  }

  lemma ParseAdvances(reader: FrameReader, ids: seq<Bytes>, output: Bytes, i: nat, offset: nat, read: seq<Bytes>,
                      frame: Frame)
    requires ParsedUpTo(reader, ids, output, i, offset, read) && i < |ids|
    requires reader(output[offset..], ids[i]) == Some(frame) && frame.size <= |output| - offset
    ensures ParsedUpTo(reader, ids, output, i + 1, offset + frame.size, read + [frame.blob])
  {
    var rest := output[offset..];
    assert ids[i..][0] == ids[i] && ids[i..][1..] == ids[i + 1..];
    assert rest[frame.size..] == output[offset + frame.size..];
    AppendAppend(read, frame.blob, ParseWith(reader, ids[i + 1..], output[offset + frame.size..]));
  }

  lemma AppendAppend(read: seq<Bytes>, blob: Bytes, later: Option<seq<Bytes>>)
    ensures Append(read, Append([blob], later)) == Append(read + [blob], later)
  {
    if later.Some? {
      assert read + ([blob] + later.value) == read + [blob] + later.value;
    }
  }

  lemma ParseStops(reader: FrameReader, ids: seq<Bytes>, output: Bytes, i: nat, offset: nat, read: seq<Bytes>)
    requires ParsedUpTo(reader, ids, output, i, offset, read)
    ensures i < |ids| && reader(output[offset..], ids[i]).None? ==> ParseWith(reader, ids, output) == None
    ensures i < |ids| && reader(output[offset..], ids[i]).Some? &&
      reader(output[offset..], ids[i]).value.size > |output| - offset
      ==> ParseWith(reader, ids, output) == None
    ensures i == |ids| ==> ParseWith(reader, ids, output) == if offset == |output| then Some(read) else None
  {
    if i < |ids| {
      assert ids[i..][0] == ids[i];
    } else {
      assert ids[i..] == [] && (output[offset..] == [] <==> offset == |output|);
      assert read + [] == read;
    }
  }

  lemma DictionaryStep(ids: seq<Bytes>, read: seq<Bytes>, i: nat, blob: Bytes)
    requires i < |ids| && |read| == i
    ensures Dictionary(ids[..i + 1], read + [blob]) == Dictionary(ids[..i], read)[ids[i] := blob]
  {
    assert ids[..i + 1][..i] == ids[..i] && (read + [blob])[..i] == read;
  }

  /** The loop invariant: parsed so far, with the dictionary of what was read. */
  ghost predicate ReadUpTo(reader: FrameReader, ids: seq<Bytes>, output: Bytes, i: int, offset: int,
                           read: seq<Bytes>, found: map<Bytes, Bytes>) {
    ParsedUpTo(reader, ids, output, i, offset, read) && found == Dictionary(ids[..i], read)
  }

  lemma ReadAdvances(reader: FrameReader, ids: seq<Bytes>, output: Bytes, i: nat, offset: nat, read: seq<Bytes>,
                     found: map<Bytes, Bytes>, frame: Frame)
    requires ReadUpTo(reader, ids, output, i, offset, read, found) && i < |ids|
    requires reader(output[offset..], ids[i]) == Some(frame) && frame.size <= |output| - offset
    ensures ReadUpTo(reader, ids, output, i + 1, offset + frame.size, read + [frame.blob], found[ids[i] := frame.blob])
  {
    ParseAdvances(reader, ids, output, i, offset, read, frame);
    DictionaryStep(ids, read, i, frame.blob);
  }

  /** What the caller gets for a parse. */
  ghost predicate Answers(ids: seq<Bytes>, parse: Option<seq<Bytes>>, blobs: Option<map<Bytes, Bytes>>) {
    match parse
    case None => blobs == None
    case Some(list) => |list| == |ids| && blobs == Some(Dictionary(ids, list))
  }

  lemma ReadEnds(reader: FrameReader, ids: seq<Bytes>, output: Bytes, offset: nat, read: seq<Bytes>,
                 found: map<Bytes, Bytes>)
    requires ReadUpTo(reader, ids, output, |ids|, offset, read, found)
    ensures Answers(ids, ParseWith(reader, ids, output), if offset != |output| then None else Some(found))
  {
    assert ids[..|ids|] == ids;
    ParseStops(reader, ids, output, |ids|, offset, read);
  }

  /** The loop over the requested objects: an offset moving over the output, a dictionary filling up. */
  method ReadFrames(reader: FrameReader, ids: seq<Bytes>, output: Bytes) returns (blobs: Option<map<Bytes, Bytes>>)
    ensures Answers(ids, ParseWith(reader, ids, output), blobs)
  {
    var found: map<Bytes, Bytes>, offset := map[], 0;
    ghost var read: seq<Bytes> := [];
    ParseBegins(reader, ids, output);
    for i := 0 to |ids|
      invariant ReadUpTo(reader, ids, output, i, offset, read, found)
    {
      var frame := reader(output[offset..], ids[i]);
      ParseStops(reader, ids, output, i, offset, read);
      if frame.None? || frame.value.size > |output| - offset {
        return None;
      }
      ReadAdvances(reader, ids, output, i, offset, read, found, frame.value);
      found := found[ids[i] := frame.value.blob];
      read := read + [frame.value.blob];
      offset := offset + frame.value.size;
    }
    ReadEnds(reader, ids, output, offset, read, found);
    blobs := if offset != |output| then None else Some(found);
  }

  /** `parse_git_batch`. */
  method ParseBatch(ids: seq<Bytes>, output: Bytes) returns (blobs: Option<map<Bytes, Bytes>>)
    ensures Answers(ids, Parse(ids, output), blobs)
  {
    blobs := ReadFrames(ReadFrame, ids, output);
  }

  /** With distinct ids, the dictionary gives every requested object its own blob. */
  lemma {:induction false} DictionaryOfDistinct(ids: seq<Bytes>, blobs: seq<Bytes>, i: nat)
    requires |ids| == |blobs| && i < |ids| && forall j, k :: 0 <= j < k < |ids| ==> ids[j] != ids[k]
    ensures ids[i] in Dictionary(ids, blobs) && Dictionary(ids, blobs)[ids[i]] == blobs[i]
  {
    if i < |ids| - 1 {
      DictionaryOfDistinct(ids[..|ids| - 1], blobs[..|blobs| - 1], i);
    }
  }
}
