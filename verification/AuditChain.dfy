/** The pinned audit chain of the paper-source recovery (`hash_fields` and `validate_audit` in
    scripts/paper_source_recovery.py). Hashing, row JSON and the fact check stay parameters. */
module AuditChain {
  import opened Optional
  import opened ByteStrings

  // ----- length-prefixed fields

  function Pow256(n: nat): nat {
    if n == 0 then 1 else 256 * Pow256(n - 1)
  }

  function BigEndian(n: nat, width: nat): (r: Bytes)
    ensures |r| == width
  {
    if width == 0 then [] else BigEndian(n / 256, width - 1) + [(n % 256) as byte]
  }

  function FromBigEndian(b: Bytes): nat {
    if b == [] then 0 else 256 * FromBigEndian(b[..|b| - 1]) + b[|b| - 1] as nat
  }

  lemma {:induction false} BigEndianRoundTrip(n: nat, width: nat)
    requires n < Pow256(width)
    ensures FromBigEndian(BigEndian(n, width)) == n
  {
    if width > 0 {
      BigEndianRoundTrip(n / 256, width - 1);
      var r := BigEndian(n, width);
      assert r[..|r| - 1] == BigEndian(n / 256, width - 1);
    }
  }

  /** A field whose length fits the eight bytes `to_bytes` allows. */
  predicate Fits(f: Bytes) {
    |f| < Pow256(8)
  }

  /** What `hash_fields` feeds to the hasher after the domain. */
  function Encode(fields: seq<Bytes>): Bytes {
    if fields == [] then [] else BigEndian(|fields[0]|, 8) + fields[0] + Encode(fields[1..])
  }

  function Decode(b: Bytes): Option<seq<Bytes>>
    decreases |b|
  {
    if b == [] then Some([])
    else if |b| < 8 then None
    else
      var n := FromBigEndian(b[..8]);
      if |b| - 8 < n then None
      else match Decode(b[8 + n..])
        case None => None
        case Some(rest) => Some([b[8..8 + n]] + rest)
  }

  /** The encoding can be read back, so it is injective over field lists of any length. */
  lemma {:induction false} EncodeRoundTrip(fields: seq<Bytes>)
    requires forall f :: f in fields ==> Fits(f)
    ensures Decode(Encode(fields)) == Some(fields)
  {
    if fields != [] {
      var f, rest := fields[0], fields[1..];
      EncodeRoundTrip(rest);
      assert f in fields;
      DecodeOne(f, Encode(rest));
      assert fields == [f] + rest;
    }
  }

  lemma DecodeOne(f: Bytes, tail: Bytes)
    requires Fits(f)
    ensures Decode(BigEndian(|f|, 8) + f + tail) == if Decode(tail).None? then None else Some([f] + Decode(tail).value)
  {
    var length := BigEndian(|f|, 8);
    var b := length + f + tail;
    BigEndianRoundTrip(|f|, 8);
    assert b[..8] == length;
    assert b[8..8 + |f|] == f;
    assert b[8 + |f|..] == tail;
  }

  lemma EncodeIsInjective(a: seq<Bytes>, b: seq<Bytes>)
    requires (forall f :: f in a ==> Fits(f)) && (forall f :: f in b ==> Fits(f))
    requires Encode(a) == Encode(b)
    ensures a == b
  {
    EncodeRoundTrip(a);
    EncodeRoundTrip(b);
  }

  lemma FeedOne(fields: seq<Bytes>, i: nat)
    requires i < |fields|
    ensures Encode(fields[i..]) == BigEndian(|fields[i]|, 8) + fields[i] + Encode(fields[i + 1..])
  {
    assert fields[i..][0] == fields[i] && fields[i..][1..] == fields[i + 1..];
  }

  /** The bytes `hash_fields` hands to the hasher, field after field. */
  method FeedFields(domain: Bytes, fields: seq<Bytes>) returns (fed: Bytes)
    ensures fed == domain + Encode(fields)
  {
    fed := domain;
    assert fields[0..] == fields;
    for i := 0 to |fields|
      invariant fed + Encode(fields[i..]) == domain + Encode(fields)
    {
      FeedOne(fields, i);
      ghost var before := fed;
      fed := fed + BigEndian(|fields[i]|, 8) + fields[i];
      assert fed + Encode(fields[i + 1..]) == before + Encode(fields[i..]);
    }
    assert fed + [] == fed;
  }

  // ----- the chain

  datatype Row = Row(id: int, asOfDate: Bytes, stage: Bytes, sourceFacts: Bytes, diagnostic: Bytes,
                     sourceHash: Bytes, diagnosticHash: Bytes, identity: Bytes, sourceRowCount: int, fillIds: Bytes)

  datatype Link = Link(auditId: int, previousHash: Bytes, recordHash: Bytes)

  datatype Pins = Pins(count: nat, auditId: int, snapshot: Bytes, tip: Bytes)

  /** What the validation calls: SHA-256 in hex, compact row JSON, and whether a row's stored facts are
      canonical and agree with its counts. */
  datatype Tools = Tools(hash: Bytes -> Bytes, compact: Row -> Bytes, factsOk: Row -> bool)

  /** The domains and the genesis, as ASCII bytes. */
  datatype Domains = Domains(source: Bytes, diagnostic: Bytes, identity: Bytes, record: Bytes, genesis: Bytes)

  function HashFields(t: Tools, domain: Bytes, fields: seq<Bytes>): Bytes {
    t.hash(domain + Encode(fields))
  }

  predicate RowOk(t: Tools, d: Domains, row: Row) {
    var source := HashFields(t, d.source, [row.sourceFacts]);
    var diagnostic := HashFields(t, d.diagnostic, [row.diagnostic]);
    && source == row.sourceHash && diagnostic == row.diagnosticHash
    && HashFields(t, d.identity, [row.asOfDate, row.stage, source, diagnostic]) == row.identity
    && t.factsOk(row)
    && Fits(t.compact(row))
  }

  /** The chain value after a prefix of the rows. */
  function Tip(t: Tools, d: Domains, rows: seq<Row>): Bytes {
    if rows == [] then d.genesis
    else HashFields(t, d.record, [Tip(t, d, rows[..|rows| - 1]), t.compact(rows[|rows| - 1])])
  }

  function FirstWithId(rows: seq<Row>, id: int): Option<Row> {
    if rows == [] then None else if rows[0].id == id then Some(rows[0]) else FirstWithId(rows[1..], id)
  }

  /** Row and link at one position agree with each other and with everything before them. */
  predicate LinkOk(t: Tools, d: Domains, rows: seq<Row>, links: seq<Link>, i: int)
    requires 0 <= i < |rows| == |links|
  {
    && rows[i].id == links[i].auditId
    && links[i].previousHash == Tip(t, d, rows[..i]) && Fits(links[i].previousHash)
    && RowOk(t, d, rows[i])
    && links[i].recordHash == Tip(t, d, rows[..i + 1])
  }

  /** The tables are accepted under the pins. */
  predicate Accepted(t: Tools, d: Domains, rows: seq<Row>, links: seq<Link>, p: Pins) {
    && |rows| == |links| == p.count
    && (forall i :: 0 <= i < |rows| ==> LinkOk(t, d, rows, links, i))
    && Tip(t, d, rows) == p.tip
    && FirstWithId(rows, p.auditId).Some? && FirstWithId(rows, p.auditId).value.sourceHash == p.snapshot
  }

  /** `validate_audit`: one pass carrying the previous hash; the selected row on success. */
  method ValidateAudit(t: Tools, d: Domains, rows: seq<Row>, links: seq<Link>, p: Pins) returns (r: Option<Row>)
    ensures r.Some? <==> Accepted(t, d, rows, links, p)
    ensures r.Some? ==> r == FirstWithId(rows, p.auditId)
  {
    if |rows| != p.count || |links| != p.count {
      return None;
    }
    var previous := d.genesis;
    for i := 0 to |rows|
      invariant previous == Tip(t, d, rows[..i])
      invariant forall j :: 0 <= j < i ==> LinkOk(t, d, rows, links, j)
    {
      var row, link := rows[i], links[i];
      assert rows[..i + 1][..i] == rows[..i];
      if row.id != link.auditId || link.previousHash != previous || !Fits(previous) {
        assert !LinkOk(t, d, rows, links, i);
        return None;
      }
      if !RowOk(t, d, row) {
        assert !LinkOk(t, d, rows, links, i);
        return None;
      }
      previous := HashFields(t, d.record, [previous, t.compact(row)]);
      if previous != link.recordHash {
        assert !LinkOk(t, d, rows, links, i);
        return None;
      }
    }
    assert rows[..|rows|] == rows;
    if previous != p.tip {
      return None;
    }
    var selected := FirstWithId(rows, p.auditId);
    if selected.None? || selected.value.sourceHash != p.snapshot {
      return None;
    }
    r := selected;
  }

  // ----- the tip authenticates the table

  /** What is hashed for the record at position `i`. */
  function RecordInput(t: Tools, d: Domains, rows: seq<Row>, i: int): Bytes
    requires 0 <= i < |rows|
  {
    d.record + Encode([Tip(t, d, rows[..i]), t.compact(rows[i])])
  }

  /** The two tables themselves exhibit a collision at `i`: of the hash, on two different record inputs,
      or of the row JSON, on two different rows. */
  predicate CollideAt(t: Tools, d: Domains, a: seq<Row>, b: seq<Row>, i: int)
    requires 0 <= i < |a| == |b|
  {
    || (var x, y := RecordInput(t, d, a, i), RecordInput(t, d, b, i); x != y && t.hash(x) == t.hash(y))
    || (a[i] != b[i] && t.compact(a[i]) == t.compact(b[i]))
  }

  /** Every field hashed along the chain has a length that fits its prefix. */
  ghost predicate ChainFits(t: Tools, d: Domains, rows: seq<Row>) {
    forall i :: 0 <= i < |rows| ==> Fits(Tip(t, d, rows[..i])) && Fits(t.compact(rows[i]))
  }

  /** Unless the two tables collide there, equal tips have equal last rows and equal earlier tips. */
  lemma LastRowAgrees(t: Tools, d: Domains, a: seq<Row>, b: seq<Row>, n: nat)
    requires 0 < n <= |a| == |b| && ChainFits(t, d, a) && ChainFits(t, d, b)
    requires Tip(t, d, a[..n]) == Tip(t, d, b[..n]) && !CollideAt(t, d, a, b, n - 1)
    ensures a[n - 1] == b[n - 1] && Tip(t, d, a[..n - 1]) == Tip(t, d, b[..n - 1])
  {
    assert a[..n][..n - 1] == a[..n - 1] && b[..n][..n - 1] == b[..n - 1];
    SameInputSameFields(t, d, a, b, n - 1);
  }

  lemma SameInputSameFields(t: Tools, d: Domains, a: seq<Row>, b: seq<Row>, i: int)
    requires 0 <= i < |a| == |b| && ChainFits(t, d, a) && ChainFits(t, d, b)
    requires RecordInput(t, d, a, i) == RecordInput(t, d, b, i)
    ensures Tip(t, d, a[..i]) == Tip(t, d, b[..i]) && t.compact(a[i]) == t.compact(b[i])
  {
    var x, y := [Tip(t, d, a[..i]), t.compact(a[i])], [Tip(t, d, b[..i]), t.compact(b[i])];
    assert (d.record + Encode(x))[|d.record|..] == Encode(x);
    assert (d.record + Encode(y))[|d.record|..] == Encode(y);
    EncodeIsInjective(x, y);
    assert x[0] == y[0] && x[1] == y[1];
  }

  predicate SameTip(t: Tools, d: Domains, a: seq<Row>, b: seq<Row>, i: int) {
    0 <= i <= |a| && i <= |b| && Tip(t, d, a[..i]) == Tip(t, d, b[..i])
  }

  ghost predicate CollidesBelow(t: Tools, d: Domains, a: seq<Row>, b: seq<Row>, n: nat)
    requires n <= |a| == |b|
  {
    exists i :: 0 <= i < n && CollideAt(t, d, a, b, i)
  }

  /** Walking back from equal tips: each step gives an equal row and an equal earlier tip, or a collision. */
  lemma {:induction false} BackwardInduction(sameTip: int -> bool, collide: int -> bool, sameRow: int -> bool, n: nat)
    requires sameTip(n)
    requires forall i {:trigger collide(i)} :: 0 <= i < n && sameTip(i + 1) && !collide(i) ==> sameRow(i) && sameTip(i)
    ensures (forall i :: 0 <= i < n ==> sameRow(i)) || exists i :: 0 <= i < n && collide(i)
  {
    if n > 0 && !collide(n - 1) {
      BackwardInduction(sameTip, collide, sameRow, n - 1);
    }
  }

  function SameTipAt(t: Tools, d: Domains, a: seq<Row>, b: seq<Row>): int -> bool {
    (i: int) => SameTip(t, d, a, b, i)
  }

  function CollidingAt(t: Tools, d: Domains, a: seq<Row>, b: seq<Row>): int -> bool
    requires |a| == |b|
  {
    (i: int) => 0 <= i < |a| && CollideAt(t, d, a, b, i)
  }

  function SameRowAt(a: seq<Row>, b: seq<Row>): int -> bool
    requires |a| == |b|
  {
    (i: int) => 0 <= i < |a| && a[i] == b[i]
  }

  lemma StepBack(t: Tools, d: Domains, a: seq<Row>, b: seq<Row>, i: nat)
    requires i < |a| == |b| && ChainFits(t, d, a) && ChainFits(t, d, b)
    requires SameTipAt(t, d, a, b)(i + 1) && !CollidingAt(t, d, a, b)(i)
    ensures SameRowAt(a, b)(i) && SameTipAt(t, d, a, b)(i)
  {
    LastRowAgrees(t, d, a, b, i + 1);
  }

  /** Backward along the chain: if the tips over the first `n` rows agree, so do those rows, unless the
      tables collide at one of them. */
  lemma TipAuthenticatesRows(t: Tools, d: Domains, a: seq<Row>, b: seq<Row>, n: nat)
    requires n <= |a| == |b| && ChainFits(t, d, a) && ChainFits(t, d, b) && SameTip(t, d, a, b, n)
    ensures (forall i :: 0 <= i < n ==> a[i] == b[i]) || CollidesBelow(t, d, a, b, n)
  {
    var sameTip, collide, sameRow := SameTipAt(t, d, a, b), CollidingAt(t, d, a, b), SameRowAt(a, b);
    forall i {:trigger collide(i)} | 0 <= i < n && sameTip(i + 1) && !collide(i) ensures sameRow(i) && sameTip(i) {
      StepBack(t, d, a, b, i);
    }
    BackwardInduction(sameTip, collide, sameRow, n);
    Collected(t, d, a, b, n);
  }

  lemma Collected(t: Tools, d: Domains, a: seq<Row>, b: seq<Row>, n: nat)
    requires n <= |a| == |b|
    ensures var collide, sameRow := CollidingAt(t, d, a, b), SameRowAt(a, b);
      && ((exists i :: 0 <= i < n && collide(i)) ==> CollidesBelow(t, d, a, b, n))
      && ((forall i :: 0 <= i < n ==> sameRow(i)) ==> forall i :: 0 <= i < n ==> a[i] == b[i])
  {
    var collide, sameRow := CollidingAt(t, d, a, b), SameRowAt(a, b);
    if i :| 0 <= i < n && collide(i) {
      assert CollideAt(t, d, a, b, i);
    }
    if forall i :: 0 <= i < n ==> sameRow(i) {
      forall i | 0 <= i < n ensures a[i] == b[i] {
        assert sameRow(i);
      }
    }
  }

  /** A pinned tip authenticates the tables: any two pairs of tables accepted under the same pins are the
      same rows and the same links, unless they exhibit a collision. */
  lemma AcceptedTablesAreEqual(t: Tools, d: Domains, p: Pins,
                               rows: seq<Row>, links: seq<Link>, rows': seq<Row>, links': seq<Link>)
    requires Accepted(t, d, rows, links, p) && Accepted(t, d, rows', links', p)
    ensures (rows == rows' && links == links') || CollidesBelow(t, d, rows, rows', |rows|)
  {
    assert rows[..|rows|] == rows && rows'[..|rows'|] == rows';
    assert ChainFits(t, d, rows) by {
      forall i | 0 <= i < |rows| ensures Fits(Tip(t, d, rows[..i])) && Fits(t.compact(rows[i])) {
        assert LinkOk(t, d, rows, links, i);
      }
    }
    assert ChainFits(t, d, rows') by {
      forall i | 0 <= i < |rows'| ensures Fits(Tip(t, d, rows'[..i])) && Fits(t.compact(rows'[i])) {
        assert LinkOk(t, d, rows', links', i);
      }
    }
    TipAuthenticatesRows(t, d, rows, rows', |rows|);
    if rows == rows' {
      forall i | 0 <= i < |links| ensures links[i] == links'[i] {
        assert LinkOk(t, d, rows, links, i) && LinkOk(t, d, rows, links', i);
      }
    }
  }
}
