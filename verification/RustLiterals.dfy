/** What the mask blanks, said without scanning: the spellings of Rust's comments and literals, and
    that the lexer's regions are exactly these. */
module RustLiterals {
  import opened Optional
  import opened ByteStrings
  import opened RustMask
  import opened RustMaskLaws

  /** The inside of a block comment, up to and including its closing mark. */
  datatype Inside = End | Text(b: byte, rest: Inside) | Nested(inner: Inside, rest: Inside)

  function Spell(c: Inside): (r: Bytes)
    ensures |r| >= 2
  {
    match c
    case End => [STAR, SLASH]
    case Text(b, rest) => [b] + Spell(rest)
    case Nested(inner, rest) => [SLASH, STAR] + Spell(inner) + Spell(rest)
  }

  /** A text byte never pairs with its successor into a comment mark. */
  predicate WellSpelled(c: Inside) {
    match c
    case End => true
    case Text(b, rest) =>
      WellSpelled(rest) && !(b == SLASH && Spell(rest)[0] == STAR) && !(b == STAR && Spell(rest)[0] == SLASH)
    case Nested(inner, rest) => WellSpelled(inner) && WellSpelled(rest)
  }

  datatype Unit = Plain(b: byte) | Escaped(b: byte)

  predicate StringUnits(units: seq<Unit>) {
    forall u :: u in units && u.Plain? ==> u.b != QUOTE && u.b != BACKSLASH
  }

  function SpellUnits(units: seq<Unit>): Bytes {
    if units == [] then []
    else (if units[0].Plain? then [units[0].b] else [BACKSLASH, units[0].b]) + SpellUnits(units[1..])
  }

  function Hashes(k: nat): (r: Bytes)
    ensures |r| == k && forall i :: 0 <= i < k ==> r[i] == HASH
  {
    seq(k, _ => HASH)
  }

  function RawClosing(k: nat): Bytes {
    [QUOTE] + Hashes(k)
  }

  /** The closing mark occurs in a raw string's body and closing only at the end. */
  predicate RawBody(body: Bytes, k: nat) {
    forall p :: 0 <= p < |body| ==> !(RawClosing(k) <= (body + RawClosing(k))[p..])
  }

  predicate RawSpelling(x: Bytes, k: nat, body: Bytes) {
    RawBody(body, k) && x == [LOWER_R] + Hashes(k) + [QUOTE] + body + RawClosing(k)
  }

  /** What may stand between the apostrophes of a character literal. */
  predicate CharBody(m: Bytes) {
    || (|m| == 1 && m[0] != APOSTROPHE && m[0] != BACKSLASH && m[0] != CR && m[0] != LF && m[0] < 0x80)
    || (2 <= |m| <= 4 && 0xC0 <= m[0] <= 0xF7 && forall i :: 1 <= i < |m| ==> Continuation(m[i]))
    || (|m| == 2 && m[0] == BACKSLASH && m[1] != CR && m[1] != LF)
    || (|m| == 4 && m[0] == BACKSLASH && m[1] == LOWER_X && HexDigit(m[2]) && HexDigit(m[3]))
    || (|m| >= 5 && m[0] == BACKSLASH && m[1] == LOWER_U && m[2] == OPEN_BRACE && m[|m| - 1] == CLOSE_BRACE &&
        forall i :: 3 <= i < |m| - 1 ==> HexOrUnderscore(m[i]))
  }

  predicate LineComment(x: Bytes, rest: Bytes) {
    Starts(x, SLASH, SLASH) && LF !in x && (rest == [] || rest[0] == LF)
  }

  ghost predicate BlockComment(x: Bytes) {
    exists c :: WellSpelled(c) && x == [SLASH, STAR] + Spell(c)
  }

  ghost predicate RawString(x: Bytes) {
    exists k: nat, body :: RawSpelling(x, k, body)
  }

  ghost predicate PlainString(x: Bytes) {
    exists units :: StringUnits(units) && x == [QUOTE] + SpellUnits(units) + [QUOTE]
  }

  predicate Character(x: Bytes) {
    |x| >= 3 && x[0] == APOSTROPHE && x[|x| - 1] == APOSTROPHE && CharBody(x[1..|x| - 1])
  }

  /** `x` is a complete comment or literal in front of `rest`. */
  ghost predicate Literal(x: Bytes, rest: Bytes) {
    LineComment(x, rest) || BlockComment(x) || RawString(x) || PlainString(x) || Character(x)
  }

  // ----- block comments

  lemma TextLength(b: byte, a: Bytes, tail: Bytes, depth: nat)
    requires a != [] && !(b == SLASH && a[0] == STAR) && !(b == STAR && a[0] == SLASH)
    requires CommentLength(a + tail, depth + 1) == Plus(|a|, CommentLength(tail, depth))
    ensures CommentLength([b] + a + tail, depth + 1) == Plus(1 + |a|, CommentLength(tail, depth))
  {
    var x := [b] + a + tail;
    assert x[1..] == a + tail;
    assert x[0] == b && x[1] == a[0];
  }

  lemma OpenStep(t: Bytes, depth: nat)
    requires depth > 0
    ensures CommentLength([SLASH, STAR] + t, depth) == Plus(2, CommentLength(t, depth + 1))
  {
    assert ([SLASH, STAR] + t)[2..] == t;
  }

  lemma CloseStep(t: Bytes, depth: nat)
    ensures CommentLength([STAR, SLASH] + t, depth + 1) == Plus(2, CommentLength(t, depth))
  {
    assert ([STAR, SLASH] + t)[2..] == t;
  }

  lemma Reassociate(mark: Bytes, a: Bytes, b: Bytes, tail: Bytes)
    ensures mark + a + b + tail == mark + (a + (b + tail))
    ensures |mark + a + b| == |mark| + |a| + |b|
  {
  }

  lemma NestedLength(a: Bytes, b: Bytes, tail: Bytes, depth: nat)
    requires CommentLength(a + (b + tail), depth + 2) == Plus(|a|, CommentLength(b + tail, depth + 1))
    requires CommentLength(b + tail, depth + 1) == Plus(|b|, CommentLength(tail, depth))
    ensures CommentLength([SLASH, STAR] + a + b + tail, depth + 1) == Plus(2 + |a| + |b|, CommentLength(tail, depth))
  {
    Reassociate([SLASH, STAR], a, b, tail);
    OpenStep(a + (b + tail), depth + 1);
  }

  lemma {:induction false} CommentLengthOfSpelling(c: Inside, tail: Bytes, depth: nat)
    requires WellSpelled(c)
    ensures CommentLength(Spell(c) + tail, depth + 1) == Plus(|Spell(c)|, CommentLength(tail, depth))
  {
    match c
    case End => CloseStep(tail, depth);
    case Text(b, rest) =>
      CommentLengthOfSpelling(rest, tail, depth);
      TextLength(b, Spell(rest), tail, depth);
    case Nested(inner, rest) =>
      CommentLengthOfSpelling(inner, Spell(rest) + tail, depth + 1);
      CommentLengthOfSpelling(rest, tail, depth);
      NestedLength(Spell(inner), Spell(rest), tail, depth);
      Reassociate([SLASH, STAR], Spell(inner), Spell(rest), tail);
  }

  lemma TextSpelling(t: Bytes, rest: Inside, tail: Bytes)
    requires t != [] && t[1..] == Spell(rest) + tail && WellSpelled(rest)
    requires !Starts(t, SLASH, STAR) && !Starts(t, STAR, SLASH)
    ensures WellSpelled(Text(t[0], rest)) && t == Spell(Text(t[0], rest)) + tail
  {
    assert t == [t[0]] + t[1..];
    assert t[1] == t[1..][0] == Spell(rest)[0];
  }

  /** Any bytes whose comment ends begin with a spelling. */
  lemma {:induction false} SpellingOfComment(t: Bytes, depth: nat) returns (c: Inside, tail: Bytes)
    requires CommentLength(t, depth + 1).Some?
    ensures WellSpelled(c) && t == Spell(c) + tail
    ensures CommentLength(tail, depth).Some?
    decreases |t|
  {
    if Starts(t, SLASH, STAR) {
      assert t == [SLASH, STAR] + t[2..];
      var inner, middle := SpellingOfComment(t[2..], depth + 1);
      var rest, after := SpellingOfComment(middle, depth);
      c, tail := Nested(inner, rest), after;
      Reassociate([SLASH, STAR], Spell(inner), Spell(rest), tail);
    } else if Starts(t, STAR, SLASH) {
      c, tail := End, t[2..];
      assert t == [STAR, SLASH] + t[2..];
    } else {
      var rest, after := SpellingOfComment(t[1..], depth);
      c, tail := Text(t[0], rest), after;
      TextSpelling(t, rest, after);
    }
  }

  // ----- strings

  lemma {:induction false} StringLengthOfSpelling(units: seq<Unit>, tail: Bytes)
    requires StringUnits(units)
    ensures StringLength(SpellUnits(units) + [QUOTE] + tail) == Some(|SpellUnits(units)| + 1)
  {
    var x := SpellUnits(units) + [QUOTE] + tail;
    if units != [] {
      assert units[0] in units;
      var rest := SpellUnits(units[1..]) + [QUOTE] + tail;
      assert if units[0].Plain? then x[1..] == rest else x[2..] == rest;
      StringLengthOfSpelling(units[1..], tail);
    }
  }

  lemma {:induction false} SpellingOfString(t: Bytes) returns (units: seq<Unit>)
    requires StringLength(t).Some?
    ensures StringUnits(units) && StringLength(t).value == |SpellUnits(units)| + 1
    ensures t[..StringLength(t).value] == SpellUnits(units) + [QUOTE]
  {
    var n := StringLength(t).value;
    if t[0] == QUOTE {
      units := [];
    } else {
      var step, first := if t[0] == BACKSLASH then 2 else 1, if t[0] == BACKSLASH then Escaped(t[1]) else Plain(t[0]);
      var rest := SpellingOfString(t[step..]);
      units := [first] + rest;
      assert units[1..] == rest;
      assert t[..n] == t[..step] + t[step..][..n - step];
    }
  }

  // ----- raw strings

  lemma {:induction false} HashRunAtLeast(t: Bytes, k: nat)
    ensures HashRun(t) >= k <==> Hashes(k) <= t
  {
    if k > 0 && t != [] {
      HashRunAtLeast(t[1..], k - 1);
      if Hashes(k) <= t {
        assert t[0] == Hashes(k)[0];
        assert forall i :: 0 <= i < k - 1 ==> t[1..][i] == t[i + 1] == Hashes(k)[i + 1];
        assert Hashes(k - 1) <= t[1..];
      }
      if HashRun(t) >= k {
        assert forall i :: 0 <= i < k ==> t[i] == HASH;
        assert Hashes(k) == t[..k];
      }
    } else if k == 0 {
      assert Hashes(0) == [];
    }
  }

  lemma ClosesRawIsPrefix(t: Bytes, k: nat)
    ensures ClosesRaw(t, k) <==> RawClosing(k) <= t
  {
    if t != [] {
      HashRunAtLeast(t[1..], k);
      if RawClosing(k) <= t {
        assert t[0] == RawClosing(k)[0];
        assert t[1..][..k] == RawClosing(k)[1..] == Hashes(k);
      }
      if ClosesRaw(t, k) {
        assert t[..k + 1] == [t[0]] + t[1..][..k];
      }
    }
  }

  lemma PrefixLocal(p: Bytes, a: Bytes, b: Bytes)
    requires |p| <= |a|
    ensures p <= a + b <==> p <= a
  {
    assert (a + b)[..|p|] == a[..|p|];
  }

  lemma {:induction false} RawLengthOfSpelling(body: Bytes, k: nat, tail: Bytes)
    requires RawBody(body, k)
    ensures RawLength(body + RawClosing(k) + tail, k) == Some(|body| + 1 + k)
  {
    var x := body + RawClosing(k) + tail;
    ClosesRawIsPrefix(x, k);
    if body == [] {
      assert x == RawClosing(k) + tail;
    } else {
      assert (body + RawClosing(k))[0..] == body + RawClosing(k);
      PrefixLocal(RawClosing(k), body + RawClosing(k), tail);
      assert x[1..] == body[1..] + RawClosing(k) + tail;
      forall p | 0 <= p < |body[1..]| ensures !(RawClosing(k) <= (body[1..] + RawClosing(k))[p..]) {
        assert (body[1..] + RawClosing(k))[p..] == (body + RawClosing(k))[p + 1..];
      }
      RawLengthOfSpelling(body[1..], k, tail);
    }
  }

  lemma RawBodyStep(b: byte, rest: Bytes, k: nat)
    requires RawBody(rest, k) && !(RawClosing(k) <= [b] + rest + RawClosing(k))
    ensures RawBody([b] + rest, k)
  {
    var x := [b] + rest + RawClosing(k);
    forall p | 0 <= p < |[b] + rest| ensures !(RawClosing(k) <= x[p..]) {
      if p == 0 {
        assert x[0..] == x;
      } else {
        assert x[p..] == (rest + RawClosing(k))[p - 1..];
      }
    }
  }

  lemma {:induction false} SpellingOfRaw(t: Bytes, k: nat) returns (body: Bytes)
    requires RawLength(t, k).Some?
    ensures RawLength(t, k).value == |body| + 1 + k <= |t|
    ensures RawBody(body, k) && t[..|body| + 1 + k] == body + RawClosing(k)
  {
    ClosesRawIsPrefix(t, k);
    if ClosesRaw(t, k) {
      body := [];
      assert t[..k + 1] == RawClosing(k);
    } else {
      var rest := SpellingOfRaw(t[1..], k);
      body := [t[0]] + rest;
      var n := |body| + 1 + k;
      assert t[..n] == [t[0]] + t[1..][..n - 1];
      assert [t[0]] + rest + RawClosing(k) == t[..n];
      assert t == t[..n] + t[n..];
      PrefixLocal(RawClosing(k), t[..n], t[n..]);
      RawBodyStep(t[0], rest, k);
    }
  }

  lemma {:induction false} HashRunIs(t: Bytes, n: nat)
    requires n < |t| && (forall i :: 0 <= i < n ==> t[i] == HASH) && t[n] != HASH
    ensures HashRun(t) == n
  {
    if n > 0 {
      HashRunIs(t[1..], n - 1);
    }
  }

  // ----- character literals

  lemma CharLengthOfSpelling(x: Bytes, rest: Bytes)
    requires Character(x)
    ensures CharLength(x + rest) == |x|
  {
    var t, m := x + rest, x[1..|x| - 1];
    assert forall i :: 0 <= i < |m| ==> t[i + 1] == m[i];
    assert t[|x| - 1] == APOSTROPHE;
    if |m| >= 5 && m[0] == BACKSLASH {
      assert forall i :: 0 <= i < |m| - 4 ==> t[4..][i] == m[i + 3];
      HexRunIs(t[4..], |m| - 4);
    } else if m[0] >= 0xC0 {
      assert forall i :: 0 <= i < |m| - 1 ==> t[2..][i] == m[i + 1];
      ContinuationRunIs(t[2..], |m| - 1);
    }
  }

  lemma SpellingOfChar(t: Bytes)
    requires CharLength(t) > 0
    ensures Character(t[..CharLength(t)])
  {
    var n := CharLength(t);
    var x := t[..n];
    var m := x[1..n - 1];
    assert forall i :: 0 <= i < |m| ==> m[i] == t[i + 1];
    if t[1] == BACKSLASH && t[2] == LOWER_U && n > 4 {
      assert forall i :: 3 <= i < |m| - 1 ==> m[i] == t[4..][i - 3];
    } else if t[1] >= 0xC0 {
      assert forall i :: 1 <= i < |m| ==> m[i] == t[2..][i - 1];
    }
  }

  // ----- line comments

  lemma {:induction false} LineLengthIs(y: Bytes, rest: Bytes)
    requires LF !in y && (rest == [] || rest[0] == LF)
    ensures LineLength(y + rest) == |y|
  {
    if y == [] {
      assert y + rest == rest;
    } else {
      assert (y + rest)[1..] == y[1..] + rest;
      LineLengthIs(y[1..], rest);
    }
  }

  lemma {:induction false} LineLengthStops(t: Bytes)
    ensures LF !in t[..LineLength(t)]
    ensures LineLength(t) == |t| || t[LineLength(t)] == LF
  {
    if t != [] && t[0] != LF {
      LineLengthStops(t[1..]);
      assert t[..LineLength(t)] == [t[0]] + t[1..][..LineLength(t[1..])];
    }
  }

  // ----- the lexer finds exactly the literals

  lemma LineCommentIsRegion(x: Bytes, rest: Bytes)
    requires LineComment(x, rest)
    ensures Lex(x + rest) == Region(|x|)
  {
    assert (x + rest)[2..] == x[2..] + rest;
    LineLengthIs(x[2..], rest);
  }

  lemma BlockCommentIsRegion(x: Bytes, rest: Bytes)
    requires BlockComment(x)
    ensures x != [] && Lex(x + rest) == Region(|x|)
  {
    var c :| WellSpelled(c) && x == [SLASH, STAR] + Spell(c);
    assert (x + rest)[2..] == Spell(c) + rest;
    CommentLengthOfSpelling(c, rest, 0);
  }

  lemma RawOpening(x: Bytes, k: nat, body: Bytes, rest: Bytes)
    requires x == [LOWER_R] + Hashes(k) + [QUOTE] + body + RawClosing(k)
    ensures var t := x + rest;
      && k + 2 <= |t| && t[0] == LOWER_R && (forall i :: 0 <= i < k ==> t[1..][i] == HASH) && t[1..][k] == QUOTE
      && t[k + 2..] == body + RawClosing(k) + rest && |x| == k + 2 + |body| + 1 + k
  {
    var t := x + rest;
    assert forall i :: 0 <= i < k ==> t[1..][i] == x[i + 1] == HASH;
    assert t[k + 2..] == body + RawClosing(k) + rest;
  }

  lemma RawStringIsRegion(x: Bytes, rest: Bytes)
    requires RawString(x)
    ensures x != [] && Lex(x + rest) == Region(|x|)
  {
    var k: nat, body :| RawSpelling(x, k, body);
    var t := x + rest;
    RawOpening(x, k, body, rest);
    HashRunIs(t[1..], k);
    RawLengthOfSpelling(body, k, rest);
  }

  lemma PlainStringIsRegion(x: Bytes, rest: Bytes)
    requires PlainString(x)
    ensures x != [] && Lex(x + rest) == Region(|x|)
  {
    var units :| StringUnits(units) && x == [QUOTE] + SpellUnits(units) + [QUOTE];
    assert (x + rest)[1..] == SpellUnits(units) + [QUOTE] + rest;
    StringLengthOfSpelling(units, rest);
  }

  lemma CharacterIsRegion(x: Bytes, rest: Bytes)
    requires Character(x)
    ensures Lex(x + rest) == Region(|x|)
  {
    CharLengthOfSpelling(x, rest);
  }

  /** Every comment and literal is recognised, whole, whatever follows it. */
  lemma LiteralIsRegion(x: Bytes, rest: Bytes)
    requires Literal(x, rest)
    ensures x != [] && Lex(x + rest) == Region(|x|)
  {
    if LineComment(x, rest) {
      LineCommentIsRegion(x, rest);
    } else if BlockComment(x) {
      BlockCommentIsRegion(x, rest);
    } else if RawString(x) {
      RawStringIsRegion(x, rest);
    } else if PlainString(x) {
      PlainStringIsRegion(x, rest);
    } else {
      CharacterIsRegion(x, rest);
    }
  }

  lemma CommentRegionIsLiteral(t: Bytes)
    requires Starts(t, SLASH, STAR) && CommentLength(t[2..], 1).Some?
    ensures BlockComment(t[..2 + CommentLength(t[2..], 1).value])
  {
    var c, tail := SpellingOfComment(t[2..], 0);
    CommentLengthOfSpelling(c, tail, 0);
    var n := |Spell(c)|;
    assert t[..2 + n] == [SLASH, STAR] + t[2..][..n];
    assert t[2..][..n] == Spell(c);
  }

  lemma RawPrefix(t: Bytes, k: nat)
    requires k + 2 <= |t| && t[0] == LOWER_R && t[1..k + 1] == Hashes(k) && t[k + 1] == QUOTE
    ensures t[..k + 2] == [LOWER_R] + Hashes(k) + [QUOTE]
  {
    assert t[..k + 2] == [t[0]] + t[1..k + 1] + [t[k + 1]];
  }

  lemma RawPieces(t: Bytes, k: nat, body: Bytes, n: nat)
    requires k + 2 + n <= |t| && t[0] == LOWER_R && t[1..k + 1] == Hashes(k) && t[k + 1] == QUOTE
    requires t[k + 2..][..n] == body + RawClosing(k)
    ensures t[..k + 2 + n] == [LOWER_R] + Hashes(k) + [QUOTE] + body + RawClosing(k)
  {
    var opening := [LOWER_R] + Hashes(k) + [QUOTE];
    RawPrefix(t, k);
    assert t[..k + 2 + n] == t[..k + 2] + t[k + 2..][..n];
    assert opening + (body + RawClosing(k)) == opening + body + RawClosing(k);
  }

  lemma RawRegionIsLiteral(t: Bytes)
    requires OpensRaw(t) && RawLength(t[HashRun(t[1..]) + 2..], HashRun(t[1..])).Some?
    ensures var k := HashRun(t[1..]); RawString(t[..k + 2 + RawLength(t[k + 2..], k).value])
  {
    var k := HashRun(t[1..]);
    var body := SpellingOfRaw(t[k + 2..], k);
    assert Hashes(k) == t[1..k + 1];
    RawPieces(t, k, body, |body| + 1 + k);
    assert RawSpelling(t[..k + 2 + (|body| + 1 + k)], k, body);
  }

  lemma StringRegionIsLiteral(t: Bytes)
    requires t != [] && t[0] == QUOTE && StringLength(t[1..]).Some?
    ensures PlainString(t[..1 + StringLength(t[1..]).value])
  {
    var units := SpellingOfString(t[1..]);
    var n := StringLength(t[1..]).value;
    assert t[..1 + n] == [QUOTE] + t[1..][..n];
  }

  /** The regions of the lexer are exactly the comments and literals. */
  lemma RegionsAreExactlyLiterals(t: Bytes, n: nat)
    requires t != [] && n <= |t|
    ensures Lex(t) == Region(n) <==> Literal(t[..n], t[n..])
  {
    assert t == t[..n] + t[n..];
    if Literal(t[..n], t[n..]) {
      LiteralIsRegion(t[..n], t[n..]);
    }
    if Lex(t) == Region(n) {
      if Starts(t, SLASH, SLASH) {
        LineLengthStops(t[2..]);
        assert t[..n] == t[..2] + t[2..][..n - 2];
      } else if Starts(t, SLASH, STAR) {
        CommentRegionIsLiteral(t);
      } else if OpensRaw(t) {
        RawRegionIsLiteral(t);
      } else if t[0] == QUOTE {
        StringRegionIsLiteral(t);
      } else {
        SpellingOfChar(t);
      }
    }
  }
}
